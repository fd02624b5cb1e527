/** One-dimensional interpolation (the library's interp module): piecewise
    polynomials on the segments [x_j, x_(j+1)] of a table of points, built
    once from the table, and evaluated by finding the first segment that
    brackets x, with a choice of behaviour outside the table. */
module Interp {
  import opened Prelude

  datatype InterpolationType = Linear | Quadratic | Cubic | ConstantBackward | ConstantForward
  {
    /** The types that evaluate polynomial coefficients. */
    predicate IsSpline() {
      Linear? || Quadratic? || Cubic?
    }
  }

  /** The extrapolation choices; the variant called None in the library is
      NoExtrapolation here, so that it does not clash with Option's None. */
  datatype ExtrapolationStrategy = NoExtrapolation | Constant | ExtendSpline

  /** The source panics in these cases; the model returns the error. */
  const OutOfBounds: string := "Value x is out of bounds and no extrapolation is enabled."
  const IndexOutOfBounds: string := "index out of bounds"

  /** Interpolator: the table, the coefficients b, c, d of every segment
      polynomial y_j + b_j t + c_j t^2 + d_j t^3 (t = x - x_j), and the two
      choices. It is never changed after construction. */
  datatype Interpolator = Interpolator(
    xs: seq<real>, ys: seq<real>,
    b: seq<real>, c: seq<real>, d: seq<real>,
    kind: InterpolationType, extrapolation: ExtrapolationStrategy)

  /** The coefficient vectors of compute_spline_coefficients. */
  datatype Coefficients = Coefficients(b: seq<real>, c: seq<real>, d: seq<real>)

  /** What new establishes: a table of at least two points, one coefficient
      per segment for the spline types (c has one more for Cubic) and none
      for the constant types. */
  predicate Valid(itp: Interpolator) {
    && |itp.xs| == |itp.ys| >= 2
    && (itp.kind.IsSpline() ==>
          |itp.b| == |itp.xs| - 1 && |itp.c| >= |itp.xs| - 1 && |itp.d| == |itp.xs| - 1)
    && (!itp.kind.IsSpline() ==> itp.b == [] && itp.c == [] && itp.d == [])
  }

  predicate DistinctNeighbours(xs: seq<real>) {
    forall i :: 0 <= i < |xs| - 1 ==> xs[i] != xs[i + 1]
  }

  predicate StrictlyIncreasing(xs: seq<real>) {
    forall i :: 0 <= i < |xs| - 1 ==> xs[i] < xs[i + 1]
  }

  lemma {:induction false} IncreasingPairwise(xs: seq<real>, i: nat, j: nat)
    requires StrictlyIncreasing(xs) && i < j < |xs|
    decreases j - i
    ensures xs[i] < xs[j]
  {
    if i + 1 < j {
      IncreasingPairwise(xs, i + 1, j);
    }
  }

  /** The divisions each type performs need: distinct neighbours for the
      slopes of Linear and Quadratic, an increasing table for the elimination
      of Cubic. */
  predicate SplineReady(xs: seq<real>, kind: InterpolationType) {
    && ((kind.Linear? || kind.Quadratic?) ==> DistinctNeighbours(xs))
    && (kind.Cubic? ==> StrictlyIncreasing(xs))
  }

  // ---------------------------------------------------------------------
  // Evaluation

  /** The polynomial of one segment at offset t from its left end. */
  function SegmentValue(y: real, b: real, c: real, d: real, t: real): real {
    y + b * t + c * (t * t) + d * (t * t * t)
  }

  /** The first segment at or after `from` whose ends bracket x. */
  function FirstBracketFrom(xs: seq<real>, x: real, from: nat): (r: Option<nat>)
    decreases |xs| - from
    ensures r.Some? ==>
      && from <= r.value < |xs| - 1
      && xs[r.value] <= x <= xs[r.value + 1]
      && forall k :: from <= k < r.value ==> !(xs[k] <= x <= xs[k + 1])
    ensures r.None? ==> forall k :: from <= k < |xs| - 1 ==> !(xs[k] <= x <= xs[k + 1])
  {
    if from + 1 >= |xs| then None
    else if xs[from] <= x <= xs[from + 1] then Some(from)
    else FirstBracketFrom(xs, x, from + 1)
  }

  /** Whatever the order of the table, an x between its first and its last
      value is bracketed by some segment: the table passes from below x to
      above it. */
  lemma {:induction false} BracketExists(xs: seq<real>, x: real, from: nat)
    requires from < |xs| - 1
    decreases |xs| - from
    ensures xs[from] <= x <= xs[|xs| - 1] ==> FirstBracketFrom(xs, x, from).Some?
  {
    if xs[from] <= x <= xs[|xs| - 1] && !(xs[from] <= x <= xs[from + 1]) {
      BracketExists(xs, x, from + 1);
    }
  }

  /** The value the bracketing segment j gives at x. */
  function ValueIn(itp: Interpolator, j: nat, x: real): real
    requires Valid(itp) && j < |itp.xs| - 1
  {
    match itp.kind
    case ConstantBackward => itp.ys[j]
    case ConstantForward => itp.ys[j + 1]
    case _ => SegmentValue(itp.ys[j], itp.b[j], itp.c[j], itp.d[j], x - itp.xs[j])
  }

  /** extrapolate. */
  function Extrapolated(itp: Interpolator, x: real): (r: Result<real>)
    requires Valid(itp)
    // failing exactly where the source panics
    ensures r.Err? <==>
      itp.extrapolation.NoExtrapolation? || (itp.extrapolation.ExtendSpline? && !itp.kind.IsSpline())
    // Constant: the y of the end on x's side
    ensures itp.extrapolation.Constant? ==>
      r == Ok(if x < itp.xs[0] then itp.ys[0] else itp.ys[|itp.ys| - 1])
    // ExtendSpline: the polynomial interpolation uses on the first or the last segment
    ensures itp.extrapolation.ExtendSpline? && itp.kind.IsSpline() ==>
      r == Ok(ValueIn(itp, if x < itp.xs[0] then 0 else |itp.xs| - 2, x))
  {
    match itp.extrapolation
    case NoExtrapolation => Err(OutOfBounds)
    case Constant => Ok(if x < itp.xs[0] then itp.ys[0] else itp.ys[|itp.ys| - 1])
    case ExtendSpline =>
      var j := if x < itp.xs[0] then 0 else |itp.xs| - 2;
      if itp.kind.IsSpline() then
        Ok(SegmentValue(itp.ys[j], itp.b[j], itp.c[j], itp.d[j], x - itp.xs[j]))
      else Err(IndexOutOfBounds)
  }

  /** interpolate as a function: the first bracketing segment's value, or
      else extrapolation. */
  function Interpolated(itp: Interpolator, x: real): (r: Result<real>)
    requires Valid(itp)
    // inside the table x is always bracketed (the source's unreachable!
    // branch is unreachable) and the first bracketing segment decides
    ensures itp.xs[0] <= x <= itp.xs[|itp.xs| - 1] ==>
      && FirstBracketFrom(itp.xs, x, 0).Some?
      && r == Ok(ValueIn(itp, FirstBracketFrom(itp.xs, x, 0).value, x))
    // only an x outside the table can be left unbracketed; it is extrapolated
    ensures FirstBracketFrom(itp.xs, x, 0).None? ==>
      (x < itp.xs[0] || x > itp.xs[|itp.xs| - 1]) && r == Extrapolated(itp, x)
  {
    BracketExists(itp.xs, x, 0);
    match FirstBracketFrom(itp.xs, x, 0)
    case Some(j) => Ok(ValueIn(itp, j, x))
    case None => Extrapolated(itp, x)
  }

  /** interpolate: the search loop with its early return. */
  method Interpolate(itp: Interpolator, x: real) returns (r: Result<real>)
    requires Valid(itp)
    ensures r == Interpolated(itp, x)
  {
    var j := 0;
    while j < |itp.xs| - 1
      invariant 0 <= j <= |itp.xs| - 1
      invariant FirstBracketFrom(itp.xs, x, 0) == FirstBracketFrom(itp.xs, x, j)
    {
      if itp.xs[j] <= x && x <= itp.xs[j + 1] {
        var dx := x - itp.xs[j];
        match itp.kind
        case ConstantBackward =>
          return Ok(itp.ys[j]);
        case ConstantForward =>
          return Ok(itp.ys[j + 1]);
        case _ =>
          return Ok(SegmentValue(itp.ys[j], itp.b[j], itp.c[j], itp.d[j], dx));
      }
      j := j + 1;
    }
    // no segment brackets x, so x lies outside the table
    BracketExists(itp.xs, x, 0);
    r := Extrapolated(itp, x);
  }

  /** On an increasing table the node x_k is first bracketed by the
      segment that ends at it (by segment 0 for x_0). */
  lemma BracketOfNode(xs: seq<real>, k: nat)
    requires StrictlyIncreasing(xs) && |xs| >= 2 && k < |xs|
    ensures FirstBracketFrom(xs, xs[k], 0) == Some(if k == 0 then 0 else k - 1)
  {
    var n := |xs| - 1;
    if k > 0 {
      IncreasingPairwise(xs, 0, k);
    }
    if k < n {
      IncreasingPairwise(xs, k, n);
    }
    var first := FirstBracketFrom(xs, xs[k], 0);
    var j := if k == 0 then 0 else k - 1;
    assert xs[j] <= xs[k] <= xs[j + 1];
    if first.value < j {
      IncreasingPairwise(xs, first.value + 1, k);
      assert false;
    }
  }

  lemma SegmentAtStart(y: real, b: real, c: real, d: real)
    ensures SegmentValue(y, b, c, d, 0.0) == y
  {
  }

  /** On an increasing table, a spline whose segments meet the nodes
      interpolates: it returns y_k at x_k. */
  lemma InterpolateAtNodes(itp: Interpolator, k: nat)
    requires Valid(itp) && itp.kind.IsSpline() && StrictlyIncreasing(itp.xs)
    requires MeetsNodes(itp.xs, itp.ys, Coefficients(itp.b, itp.c, itp.d))
    requires k < |itp.xs|
    ensures Interpolated(itp, itp.xs[k]) == Ok(itp.ys[k])
  {
    var xs, ys, x := itp.xs, itp.ys, itp.xs[k];
    BracketOfNode(xs, k);
    if k == 0 {
      assert Interpolated(itp, x) == Ok(ValueIn(itp, 0, x));
      SegmentAtStart(ys[0], itp.b[0], itp.c[0], itp.d[0]);
    } else {
      var j := k - 1;
      assert Interpolated(itp, x) == Ok(ValueIn(itp, j, x));
      assert x - xs[j] == Diffs(xs)[j];
      assert SegmentValue(ys[j], itp.b[j], itp.c[j], itp.d[j], Diffs(xs)[j]) == ys[j + 1];
    }
  }

  // ---------------------------------------------------------------------
  // Coefficients
  //
  // The proofs below state facts about the entries of the coefficient
  // vectors in the very shape the small arithmetic lemmas use, and keep the
  // products those lemmas need as Times terms, so that the solver matches
  // terms instead of redoing nonlinear arithmetic over whole sequences.

  /** A product kept as one term. */
  function Times(a: real, b: real): real {
    a * b
  }

  function Zeros(n: nat): (r: seq<real>)
    ensures |r| == n && forall i :: 0 <= i < n ==> r[i] == 0.0
  {
    seq(n, _ => 0.0)
  }

  /** Successive differences: the spacings dx of the table or its rises dy. */
  function Diffs(v: seq<real>): (r: seq<real>)
    requires |v| >= 1
    ensures |r| == |v| - 1 && forall i :: 0 <= i < |r| ==> v[i] + r[i] == v[i + 1]
  {
    seq(|v| - 1, i requires 0 <= i < |v| - 1 => v[i + 1] - v[i])
  }

  /** dy/dx of every segment. */
  function Slopes(xs: seq<real>, ys: seq<real>): (r: seq<real>)
    requires |xs| == |ys| >= 2 && DistinctNeighbours(xs)
    ensures |r| == |xs| - 1
  {
    var dx, dy := Diffs(xs), Diffs(ys);
    seq(|xs| - 1, i requires 0 <= i < |xs| - 1 => dy[i] / dx[i])
  }

  /** The slope of a segment carries its left node to its right one. */
  lemma SlopeMeetsNode(xs: seq<real>, ys: seq<real>, i: nat)
    requires |xs| == |ys| >= 2 && DistinctNeighbours(xs) && i < |xs| - 1
    ensures ys[i] + Times(Slopes(xs, ys)[i], Diffs(xs)[i]) == ys[i + 1]
  {
    var dx, dy := Diffs(xs), Diffs(ys);
    assert Slopes(xs, ys)[i] == dy[i] / dx[i];
    QuotientTimes(dy[i], dx[i]);
  }

  lemma QuotientTimes(p: real, q: real)
    requires q != 0.0
    ensures Times(p / q, q) == p
  {
  }

  /** Entries 0 to n - 1 of the coefficient vectors exist. */
  predicate Sized(xs: seq<real>, co: Coefficients) {
    |co.b| >= |xs| - 1 && |co.c| >= |xs| - 1 && |co.d| >= |xs| - 1
  }

  /** The polynomial of every segment meets the segment's right node (it
      meets the left one, at offset 0, by construction). */
  predicate MeetsNodes(xs: seq<real>, ys: seq<real>, co: Coefficients)
    requires |xs| == |ys| >= 1
  {
    && Sized(xs, co)
    && forall j :: 0 <= j < |xs| - 1 ==>
         SegmentValue(ys[j], co.b[j], co.c[j], co.d[j], Diffs(xs)[j]) == ys[j + 1]
  }

  /** The Linear branch: the slopes, and zero c and d. */
  function LinearCoefficients(xs: seq<real>, ys: seq<real>): (co: Coefficients)
    requires |xs| == |ys| >= 2 && DistinctNeighbours(xs)
    ensures MeetsNodes(xs, ys, co)
  {
    LinearMeetsNodes(xs, ys);
    Coefficients(Slopes(xs, ys), Zeros(|xs| - 1), Zeros(|xs| - 1))
  }

  lemma LinearMeetsNodes(xs: seq<real>, ys: seq<real>)
    requires |xs| == |ys| >= 2 && DistinctNeighbours(xs)
    ensures MeetsNodes(xs, ys, Coefficients(Slopes(xs, ys), Zeros(|xs| - 1), Zeros(|xs| - 1)))
  {
    var s, z := Slopes(xs, ys), Zeros(|xs| - 1);
    forall j | 0 <= j < |xs| - 1
      ensures SegmentValue(ys[j], s[j], z[j], z[j], Diffs(xs)[j]) == ys[j + 1]
    {
      SlopeMeetsNode(xs, ys, j);
      QuadraticSegment(ys[j], ys[j + 1], Diffs(xs)[j], s[j], z[j], s[j], z[j]);
    }
  }

  /** The point a fraction t of the way from y0 to y1. */
  function Lerp(y0: real, y1: real, t: real): real {
    (1.0 - t) * y0 + t * y1
  }

  /** Within a segment, Linear interpolation is the mean of the two nodes
      weighted by the position of x between them. */
  lemma LinearIsWeightedMean(itp: Interpolator, x: real)
    requires Valid(itp) && itp.kind.Linear? && DistinctNeighbours(itp.xs)
    requires Coefficients(itp.b, itp.c, itp.d) == LinearCoefficients(itp.xs, itp.ys)
    requires FirstBracketFrom(itp.xs, x, 0).Some?
    ensures var j := FirstBracketFrom(itp.xs, x, 0).value;
      var t := (x - itp.xs[j]) / Diffs(itp.xs)[j];
      Interpolated(itp, x) == Ok(Lerp(itp.ys[j], itp.ys[j + 1], t)) && 0.0 <= t <= 1.0
  {
    var xs, ys := itp.xs, itp.ys;
    var j := FirstBracketFrom(xs, x, 0).value;
    assert Interpolated(itp, x) == Ok(ValueIn(itp, j, x));
    SlopeMeetsNode(xs, ys, j);
    WeightedMean(ys[j], ys[j + 1], Diffs(xs)[j], itp.b[j], itp.c[j], itp.d[j], x - xs[j]);
  }

  /** A straight segment at offset u of h is the mean of its ends weighted
      by u / h. */
  lemma WeightedMean(y0: real, y1: real, h: real, s: real, c: real, d: real, u: real)
    requires 0.0 <= u <= h && h != 0.0 && c == 0.0 && d == 0.0 && y0 + Times(s, h) == y1
    ensures SegmentValue(y0, s, c, d, u) == Lerp(y0, y1, u / h) && 0.0 <= u / h <= 1.0
  {
    var t := u / h;
    assert u == t * h;
    assert s * u == t * (y1 - y0);
    QuotientAtMostOne(u, h);
  }

  lemma QuotientAtMostOne(p: real, q: real)
    requires 0.0 <= p <= q && q != 0.0
    ensures 0.0 <= p / q <= 1.0
  {
    assert p / q * q == p;
  }

  /** The change of slope at node k over twice the previous spacing. */
  function SlopeChange(dx: seq<real>, s: seq<real>, k: nat): real
    requires 1 <= k < |s| && |dx| == |s| && dx[k - 1] != 0.0
  {
    (s[k] - s[k - 1]) / (dx[k - 1] * 2.0)
  }

  /** The quadratic coefficients of the Quadratic branch: the change of
      slope on the segments 1 to n - 2, zero on the first and the last. */
  function QuadraticC(xs: seq<real>, ys: seq<real>): (r: seq<real>)
    requires |xs| == |ys| >= 2 && DistinctNeighbours(xs)
    ensures |r| == |xs| - 1
  {
    var n := |xs| - 1;
    var s, dx := Slopes(xs, ys), Diffs(xs);
    seq(n, i requires 0 <= i < n => if 1 <= i < n - 1 then SlopeChange(dx, s, i) else 0.0)
  }

  /** The Quadratic branch as the source writes it: b is the slopes, so a
      segment with c_j != 0 misses its right node. */
  method QuadraticCoefficientsAsWritten(xs: seq<real>, ys: seq<real>) returns (co: Coefficients)
    requires |xs| == |ys| >= 2 && DistinctNeighbours(xs)
    ensures co == Coefficients(Slopes(xs, ys), QuadraticC(xs, ys), Zeros(|xs| - 1))
  {
    var slopes := Slopes(xs, ys);
    var c := SlopeChanges(Diffs(xs), slopes);
    QuadraticCEntries(xs, ys, c);
    co := Coefficients(slopes, c, Zeros(|xs| - 1));
  }

  /** The loop of the Quadratic branch: c_i for i in 1 .. n - 1, then the
      last entry set to zero. */
  method SlopeChanges(dx: seq<real>, slopes: seq<real>) returns (c: seq<real>)
    requires |dx| == |slopes| >= 1 && forall k :: 0 <= k < |dx| ==> dx[k] != 0.0
    ensures |c| == |dx| && c[0] == 0.0 && c[|c| - 1] == 0.0
    ensures forall k :: 1 <= k < |c| - 1 ==> c[k] == SlopeChange(dx, slopes, k)
  {
    var n := |dx|;
    var a := new real[n](_ => 0.0);
    var i := 1;
    while i < n - 1
      invariant 1 <= i <= n
      invariant a[0] == 0.0
      invariant forall k :: 1 <= k < i ==> a[k] == SlopeChange(dx, slopes, k)
      invariant forall k :: i <= k < n ==> a[k] == 0.0
    {
      a[i] := (slopes[i] - slopes[i - 1]) / (dx[i - 1] * 2.0);
      i := i + 1;
    }
    a[n - 1] := 0.0;
    c := a[..];
  }

  /** A vector agreeing with QuadraticC entry by entry is QuadraticC. */
  lemma QuadraticCEntries(xs: seq<real>, ys: seq<real>, c: seq<real>)
    requires |xs| == |ys| >= 2 && DistinctNeighbours(xs) && |c| == |xs| - 1
    requires c[0] == 0.0 && c[|c| - 1] == 0.0
    requires forall k :: 1 <= k < |c| - 1 ==> c[k] == SlopeChange(Diffs(xs), Slopes(xs, ys), k)
    ensures c == QuadraticC(xs, ys)
  {
  }

  /** The table x = 0, 1, 2, 3 with y = x^2: the as-written quadratic
      spline gives 5 at the node x = 2, where y = 4. */
  lemma QuadraticAsWrittenMissesNode()
    ensures var xs, ys := [0.0, 1.0, 2.0, 3.0], [0.0, 1.0, 4.0, 9.0];
      var co := Coefficients(Slopes(xs, ys), QuadraticC(xs, ys), Zeros(3));
      var itp := Interpolator(xs, ys, co.b, co.c, co.d, Quadratic, NoExtrapolation);
      Valid(itp) && Interpolated(itp, 2.0) == Ok(5.0) && ys[2] == 4.0
  {
    var xs, ys := [0.0, 1.0, 2.0, 3.0], [0.0, 1.0, 4.0, 9.0];
    var dx, s := Diffs(xs), Slopes(xs, ys);
    assert dx[0] == 1.0 && dx[1] == 1.0 && dx[2] == 1.0;
    assert s[0] == 1.0 && s[1] == 3.0 && s[2] == 5.0;
    var c, z := QuadraticC(xs, ys), Zeros(3);
    assert c[1] == SlopeChange(dx, s, 1) == 1.0;
    var itp := Interpolator(xs, ys, s, c, z, Quadratic, NoExtrapolation);
    assert FirstBracketFrom(xs, 2.0, 0) == Some(1);
    assert Interpolated(itp, 2.0) == Ok(ValueIn(itp, 1, 2.0));
    assert ValueIn(itp, 1, 2.0) == SegmentValue(1.0, 3.0, 1.0, 0.0, 1.0);
  }

  /** The linear coefficients that make each segment, with its quadratic
      coefficient c_j, meet its right node: slope_j - c_j dx_j. Its ensures
      only unfolds the definition for the solver; what the coefficients
      promise is proved in QuadraticMeetsNodes and QuadraticCoefficients. */
  function QuadraticB(xs: seq<real>, ys: seq<real>): (r: seq<real>)
    requires |xs| == |ys| >= 2 && DistinctNeighbours(xs)
    ensures |r| == |xs| - 1
    ensures forall j :: 0 <= j < |r| ==> r[j] == Slopes(xs, ys)[j] - Times(QuadraticC(xs, ys)[j], Diffs(xs)[j])
  {
    var s, c, dx := Slopes(xs, ys), QuadraticC(xs, ys), Diffs(xs);
    seq(|xs| - 1, j requires 0 <= j < |xs| - 1 => s[j] - Times(c[j], dx[j]))
  }

  /** The Quadratic branch, corrected: the same c, with b from QuadraticB. */
  method QuadraticCoefficients(xs: seq<real>, ys: seq<real>) returns (co: Coefficients)
    requires |xs| == |ys| >= 2 && DistinctNeighbours(xs)
    ensures co == Coefficients(QuadraticB(xs, ys), QuadraticC(xs, ys), Zeros(|xs| - 1))
    // no quadratic term on the first and the last segment
    ensures co.c[0] == 0.0 && co.c[|xs| - 2] == 0.0
    ensures MeetsNodes(xs, ys, co)
  {
    co := QuadraticCoefficientsAsWritten(xs, ys);
    co := co.(b := QuadraticB(xs, ys));
    QuadraticMeetsNodes(xs, ys);
  }

  lemma QuadraticMeetsNodes(xs: seq<real>, ys: seq<real>)
    requires |xs| == |ys| >= 2 && DistinctNeighbours(xs)
    ensures MeetsNodes(xs, ys, Coefficients(QuadraticB(xs, ys), QuadraticC(xs, ys), Zeros(|xs| - 1)))
  {
    var s, b, c, d := Slopes(xs, ys), QuadraticB(xs, ys), QuadraticC(xs, ys), Zeros(|xs| - 1);
    forall j | 0 <= j < |xs| - 1
      ensures SegmentValue(ys[j], b[j], c[j], d[j], Diffs(xs)[j]) == ys[j + 1]
    {
      SlopeMeetsNode(xs, ys, j);
      QuadraticSegment(ys[j], ys[j + 1], Diffs(xs)[j], s[j], c[j], b[j], d[j]);
    }
  }

  /** A segment of slope s meeting its right node still does with a
      quadratic term c once its linear coefficient drops by c h. */
  lemma QuadraticSegment(y0: real, y1: real, h: real, s: real, c: real, b: real, d: real)
    requires y0 + Times(s, h) == y1 && b == s - Times(c, h) && d == 0.0
    ensures SegmentValue(y0, b, c, d, h) == y1
  {
    assert (s - c * h) * h + c * (h * h) == s * h;
  }

  /** Where two segments meet, their first derivatives agree. */
  predicate SlopeContinuous(dx: seq<real>, co: Coefficients)
    requires |co.b| >= |dx| && |co.c| >= |dx| && |co.d| >= |dx|
  {
    forall j :: 0 <= j < |dx| - 1 ==>
      co.b[j] + 2.0 * co.c[j] * dx[j] + 3.0 * co.d[j] * (dx[j] * dx[j]) == co.b[j + 1]
  }

  /** Where two segments meet, their second derivatives agree. */
  predicate CurvatureContinuous(dx: seq<real>, co: Coefficients)
    requires |co.b| >= |dx| && |co.c| >= |dx| && |co.d| >= |dx|
  {
    forall j :: 0 <= j < |dx| - 1 ==> co.c[j] + 3.0 * co.d[j] * dx[j] == co.c[j + 1]
  }

  /** The Cubic branch: the natural cubic spline, by forward elimination
      and back substitution of its tridiagonal system. */
  method CubicCoefficients(xs: seq<real>, ys: seq<real>) returns (co: Coefficients)
    requires |xs| == |ys| >= 2 && StrictlyIncreasing(xs)
    ensures |co.b| == |xs| - 1 && |co.c| == |xs| && |co.d| == |xs| - 1
    // the natural boundary: no curvature at either end
    ensures co.c[0] == 0.0 && co.c[|xs| - 1] == 0.0
    ensures MeetsNodes(xs, ys, co)
    ensures SlopeContinuous(Diffs(xs), co) && CurvatureContinuous(Diffs(xs), co)
  {
    var dx, dy := Diffs(xs), Diffs(ys);
    assert PositiveSpacings(dx);
    var alpha := RightHandSides(dx, dy);
    var l, mu, z := Eliminate(xs, dx, alpha);
    co := BackSubstitute(dx, dy, mu, z);
    NaturalSpline(xs, ys, dx, dy, alpha, l, mu, z, co);
  }

  /** The first loop of the Cubic branch: the right-hand sides of rows 1 to
      n - 1 of the spline system. */
  method RightHandSides(dx: seq<real>, dy: seq<real>) returns (alpha: seq<real>)
    requires |dx| == |dy| >= 1 && PositiveSpacings(dx)
    ensures |alpha| == |dx| - 1
    ensures forall k :: 1 <= k < |dx| ==> alpha[k - 1] == Alpha(dx, dy, k)
  {
    var n := |dx|;
    var a := new real[n - 1];
    var i := 1;
    while i < n
      invariant 1 <= i <= n
      invariant forall k :: 1 <= k < i ==> a[k - 1] == Alpha(dx, dy, k)
    {
      a[i - 1] := 3.0 / dx[i] * dy[i] - 3.0 / dx[i - 1] * dy[i - 1];
      i := i + 1;
    }
    alpha := a[..];
  }

  /** Increasing x gives positive spacings. */
  predicate PositiveSpacings(dx: seq<real>) {
    forall k :: 0 <= k < |dx| ==> dx[k] > 0.0
  }

  /** The right-hand side of row i of the spline system. */
  function Alpha(dx: seq<real>, dy: seq<real>, i: nat): real
    requires 1 <= i < |dx| && |dy| == |dx| && PositiveSpacings(dx)
  {
    3.0 / dx[i] * dy[i] - 3.0 / dx[i - 1] * dy[i - 1]
  }

  /** Row i after forward elimination: its pivot l, multiplier mu and
      right-hand side z. */
  predicate Eliminated(dx: seq<real>, alpha: real, i: nat, l: real, muPrev: real, mu: real, zPrev: real, z: real)
    requires 1 <= i < |dx|
  {
    && l > 0.0
    && l == 2.0 * (dx[i - 1] + dx[i]) - dx[i - 1] * muPrev
    && mu == dx[i] / l
    && z == (alpha - dx[i - 1] * zPrev) / l
  }

  /** The forward loop of the Cubic branch. */
  method Eliminate(xs: seq<real>, dx: seq<real>, alpha: seq<real>) returns (l: seq<real>, mu: seq<real>, z: seq<real>)
    requires |xs| >= 2 && dx == Diffs(xs) && PositiveSpacings(dx) && |alpha| == |dx| - 1
    ensures |l| == |dx| + 1 && |mu| == |dx| && |z| == |dx| + 1
    ensures mu[0] == 0.0 && z[0] == 0.0
    ensures forall k :: 1 <= k < |dx| ==> Eliminated(dx, alpha[k - 1], k, l[k], mu[k - 1], mu[k], z[k - 1], z[k])
  {
    var n := |dx|;
    var la := new real[n + 1](_ => 1.0);
    var ma := new real[n](_ => 0.0);
    var za := new real[n + 1](_ => 0.0);
    var i := 1;
    while i < n
      invariant 1 <= i <= n
      invariant ma[0] == 0.0 && za[0] == 0.0
      invariant forall k :: 0 <= k < i ==> 0.0 <= ma[k] < 1.0
      invariant forall k :: 1 <= k < i ==> Eliminated(dx, alpha[k - 1], k, la[k], ma[k - 1], ma[k], za[k - 1], za[k])
    {
      var muPrev, zPrev := ma[i - 1], za[i - 1];
      var li := 2.0 * (xs[i + 1] - xs[i - 1]) - dx[i - 1] * muPrev;
      PivotPositive(dx[i - 1], dx[i], muPrev, li);
      var mi := dx[i] / li;
      var zi := (alpha[i - 1] - dx[i - 1] * zPrev) / li;
      assert Eliminated(dx, alpha[i - 1], i, li, muPrev, mi, zPrev, zi);
      la[i], ma[i], za[i] := li, mi, zi;
      i := i + 1;
    }
    l, mu, z := la[..], ma[..], za[..];
  }

  /** With positive spacings and a previous multiplier in [0, 1), the
      pivot is positive and the next multiplier is again in [0, 1). */
  lemma PivotPositive(h0: real, h1: real, muPrev: real, l: real)
    requires h0 > 0.0 && h1 > 0.0 && 0.0 <= muPrev < 1.0
    requires l == 2.0 * (h0 + h1) - h0 * muPrev
    ensures l > h1 && 0.0 <= h1 / l < 1.0
  {
    assert h0 * muPrev < h0;
    assert l > h1;
    QuotientBelowOne(h1, l);
  }

  lemma QuotientBelowOne(p: real, q: real)
    requires 0.0 <= p < q
    ensures 0.0 <= p / q < 1.0
  {
    assert p / q * q == p;
  }

  /** What the backward loop of the Cubic branch leaves in b, c and d. */
  predicate BackSubstituted(dx: seq<real>, dy: seq<real>, mu: seq<real>, z: seq<real>, co: Coefficients)
    requires |dy| == |dx| && |mu| == |dx| && |z| == |dx| + 1 && PositiveSpacings(dx)
  {
    && |co.b| == |dx| && |co.c| == |dx| + 1 && |co.d| == |dx|
    && co.c[|dx|] == 0.0
    && forall k :: 0 <= k < |dx| ==> BackSubstitutedRow(dx[k], dy[k], mu[k], z[k], co.b[k], co.c[k], co.c[k + 1], co.d[k])
  }

  /** Row k of the back substitution. */
  predicate BackSubstitutedRow(h: real, dy: real, mu: real, z: real, b: real, c: real, cNext: real, d: real)
    requires h != 0.0
  {
    && c == z - mu * cNext
    && b == dy / h - h * (cNext + 2.0 * c) / 3.0
    && d == (cNext - c) / (3.0 * h)
  }

  /** The backward loop of the Cubic branch. */
  method BackSubstitute(dx: seq<real>, dy: seq<real>, mu: seq<real>, z: seq<real>) returns (co: Coefficients)
    requires |dy| == |dx| && |mu| == |dx| && |z| == |dx| + 1 && PositiveSpacings(dx)
    ensures BackSubstituted(dx, dy, mu, z, co)
  {
    var n := |dx|;
    var b := new real[n](_ => 0.0);
    var c := new real[n + 1](_ => 0.0);
    var d := new real[n](_ => 0.0);
    var j := n;
    while j > 0
      invariant 0 <= j <= n
      invariant c[n] == 0.0
      invariant forall k :: j <= k < n ==> BackSubstitutedRow(dx[k], dy[k], mu[k], z[k], b[k], c[k], c[k + 1], d[k])
    {
      j := j - 1;
      var cNext := c[j + 1];
      var cj := z[j] - mu[j] * cNext;
      var bj := dy[j] / dx[j] - dx[j] * (cNext + 2.0 * cj) / 3.0;
      var dj := (cNext - cj) / (3.0 * dx[j]);
      assert BackSubstitutedRow(dx[j], dy[j], mu[j], z[j], bj, cj, cNext, dj);
      c[j], b[j], d[j] := cj, bj, dj;
    }
    co := Coefficients(b[..], c[..], d[..]);
  }

  /** Forward elimination followed by back substitution yields the natural
      cubic spline through the table. */
  lemma NaturalSpline(xs: seq<real>, ys: seq<real>, dx: seq<real>, dy: seq<real>, alpha: seq<real>,
                      l: seq<real>, mu: seq<real>, z: seq<real>, co: Coefficients)
    requires |xs| == |ys| >= 2 && dx == Diffs(xs) && dy == Diffs(ys) && PositiveSpacings(dx)
    requires |alpha| == |dx| - 1 && forall k :: 1 <= k < |dx| ==> alpha[k - 1] == Alpha(dx, dy, k)
    requires |l| == |dx| + 1 && |mu| == |dx| && |z| == |dx| + 1 && mu[0] == 0.0 && z[0] == 0.0
    requires forall k :: 1 <= k < |dx| ==> Eliminated(dx, alpha[k - 1], k, l[k], mu[k - 1], mu[k], z[k - 1], z[k])
    requires BackSubstituted(dx, dy, mu, z, co)
    ensures co.c[0] == 0.0
    ensures MeetsNodes(xs, ys, co)
    ensures SlopeContinuous(dx, co) && CurvatureContinuous(dx, co)
  {
    assert BackSubstitutedRow(dx[0], dy[0], mu[0], z[0], co.b[0], co.c[0], co.c[1], co.d[0]);
    CubicMeetsNodes(xs, ys, dx, dy, mu, z, co);
    CubicJoins(dx, dy, alpha, l, mu, z, co);
  }

  lemma CubicMeetsNodes(xs: seq<real>, ys: seq<real>, dx: seq<real>, dy: seq<real>,
                        mu: seq<real>, z: seq<real>, co: Coefficients)
    requires |xs| == |ys| >= 2 && dx == Diffs(xs) && dy == Diffs(ys) && PositiveSpacings(dx)
    requires |mu| == |dx| && |z| == |dx| + 1
    requires BackSubstituted(dx, dy, mu, z, co)
    ensures MeetsNodes(xs, ys, co)
  {
    forall k | 0 <= k < |dx|
      ensures SegmentValue(ys[k], co.b[k], co.c[k], co.d[k], dx[k]) == ys[k + 1]
    {
      assert BackSubstitutedRow(dx[k], dy[k], mu[k], z[k], co.b[k], co.c[k], co.c[k + 1], co.d[k]);
      CubicSegmentMeetsNode(ys[k], ys[k + 1], dy[k], dx[k], mu[k], z[k], co.b[k], co.c[k], co.c[k + 1], co.d[k]);
    }
  }

  lemma CubicJoins(dx: seq<real>, dy: seq<real>, alpha: seq<real>,
                   l: seq<real>, mu: seq<real>, z: seq<real>, co: Coefficients)
    requires |dy| == |dx| && PositiveSpacings(dx)
    requires |alpha| == |dx| - 1 && forall k :: 1 <= k < |dx| ==> alpha[k - 1] == Alpha(dx, dy, k)
    requires |l| == |dx| + 1 && |mu| == |dx| && |z| == |dx| + 1
    requires forall k :: 1 <= k < |dx| ==> Eliminated(dx, alpha[k - 1], k, l[k], mu[k - 1], mu[k], z[k - 1], z[k])
    requires BackSubstituted(dx, dy, mu, z, co)
    ensures SlopeContinuous(dx, co) && CurvatureContinuous(dx, co)
  {
    forall k | 0 <= k < |dx| - 1
      ensures co.b[k] + 2.0 * co.c[k] * dx[k] + 3.0 * co.d[k] * (dx[k] * dx[k]) == co.b[k + 1]
      ensures co.c[k] + 3.0 * co.d[k] * dx[k] == co.c[k + 1]
    {
      assert Eliminated(dx, alpha[k], k + 1, l[k + 1], mu[k], mu[k + 1], z[k], z[k + 1]);
      assert BackSubstitutedRow(dx[k], dy[k], mu[k], z[k], co.b[k], co.c[k], co.c[k + 1], co.d[k]);
      assert BackSubstitutedRow(dx[k + 1], dy[k + 1], mu[k + 1], z[k + 1], co.b[k + 1], co.c[k + 1], co.c[k + 2], co.d[k + 1]);
      SegmentsJoin(dx, dy, alpha[k], k + 1, l[k + 1], mu[k], mu[k + 1], z[k], z[k + 1],
                   co.b[k], co.b[k + 1], co.c[k], co.c[k + 1], co.c[k + 2], co.d[k], co.d[k + 1]);
    }
  }

  /** Each segment of the back substitution's result meets its right node. */
  lemma CubicSegmentMeetsNode(y0: real, y1: real, dy: real, h: real, mu: real, z: real,
                              b: real, c0: real, c1: real, d: real)
    requires y0 + dy == y1 && h != 0.0 && BackSubstitutedRow(h, dy, mu, z, b, c0, c1, d)
    ensures SegmentValue(y0, b, c0, d, h) == y1
  {
    var p0, p1 := c0 * (h * h), c1 * (h * h);
    assert b * h == dy - (p1 + 2.0 * p0) / 3.0 by {
      assert dy / h * h == dy;
    }
    assert d * (h * h * h) == (p1 - p0) / 3.0 by {
      assert d * h == (c1 - c0) / 3.0;
    }
    SegmentTerms(y0, b, c0, d, h, dy - (p1 + 2.0 * p0) / 3.0, p0, (p1 - p0) / 3.0);
  }

  /** A segment's value from the values of its three terms. */
  lemma SegmentTerms(y: real, b: real, c: real, d: real, t: real, bt: real, ct: real, dt: real)
    requires b * t == bt && c * (t * t) == ct && d * (t * t * t) == dt
    ensures SegmentValue(y, b, c, d, t) == y + bt + ct + dt
  {
  }

  /** Row i of the spline system holds for the result of forward
      elimination and back substitution, so the two segments that meet at
      node i have the same first and second derivatives there. */
  lemma SegmentsJoin(dx: seq<real>, dy: seq<real>, alpha: real, i: nat, l: real, muPrev: real, mu: real,
                     zPrev: real, z: real, b0: real, b1: real, c0: real, c1: real, c2: real, d0: real, d1: real)
    requires 1 <= i < |dx| && |dy| == |dx| && PositiveSpacings(dx)
    requires alpha == Alpha(dx, dy, i)
    requires Eliminated(dx, alpha, i, l, muPrev, mu, zPrev, z)
    requires BackSubstitutedRow(dx[i - 1], dy[i - 1], muPrev, zPrev, b0, c0, c1, d0)
    requires BackSubstitutedRow(dx[i], dy[i], mu, z, b1, c1, c2, d1)
    ensures b0 + 2.0 * c0 * dx[i - 1] + 3.0 * d0 * (dx[i - 1] * dx[i - 1]) == b1
    ensures c0 + 3.0 * d0 * dx[i - 1] == c1
  {
    ThomasRow(dx, alpha, i, l, muPrev, mu, zPrev, z, c0, c1, c2);
    RowGivesSlope(dx[i - 1], dx[i], dy[i - 1], dy[i], muPrev, mu, zPrev, z, b0, b1, c0, c1, c2, d0, d1, alpha);
  }

  /** Row i of the spline system: h0 c_(i-1) + 2 (h0 + h1) c_i + h1 c_(i+1) = alpha_i. */
  predicate SplineRow(h0: real, h1: real, cPrev: real, c: real, cNext: real, alpha: real) {
    h0 * cPrev + 2.0 * (h0 + h1) * c + h1 * cNext == alpha
  }

  /** Back substitution solves row i of the spline system. */
  lemma ThomasRow(dx: seq<real>, alpha: real, i: nat, l: real, muPrev: real, mu: real, zPrev: real, z: real,
                  cPrev: real, c: real, cNext: real)
    requires 1 <= i < |dx| && Eliminated(dx, alpha, i, l, muPrev, mu, zPrev, z)
    requires cPrev == zPrev - muPrev * c && c == z - mu * cNext
    ensures SplineRow(dx[i - 1], dx[i], cPrev, c, cNext, alpha)
  {
    var h0, h1 := dx[i - 1], dx[i];
    assert l * z == alpha - h0 * zPrev;
    assert l * mu == h1;
    assert l * c == l * z - l * mu * cNext;
  }

  /** A solution of row i of the spline system joins the two segments with
      equal slopes and curvatures. */
  lemma RowGivesSlope(h0: real, h1: real, dy0: real, dy1: real, muPrev: real, mu: real, zPrev: real, z: real,
                      b0: real, b1: real, c0: real, c1: real, c2: real, d0: real, d1: real, alpha: real)
    requires h0 != 0.0 && h1 != 0.0
    requires BackSubstitutedRow(h0, dy0, muPrev, zPrev, b0, c0, c1, d0)
    requires BackSubstitutedRow(h1, dy1, mu, z, b1, c1, c2, d1)
    requires alpha == 3.0 / h1 * dy1 - 3.0 / h0 * dy0
    requires SplineRow(h0, h1, c0, c1, c2, alpha)
    ensures b0 + 2.0 * c0 * h0 + 3.0 * d0 * (h0 * h0) == b1
    ensures c0 + 3.0 * d0 * h0 == c1
  {
    var q0, q1 := dy0 / h0, dy1 / h1;
    var p00, p01, p11, p12 := h0 * c0, h0 * c1, h1 * c1, h1 * c2;
    assert b0 == q0 - (p01 + 2.0 * p00) / 3.0;
    assert b1 == q1 - (p12 + 2.0 * p11) / 3.0;
    assert alpha == 3.0 * q1 - 3.0 * q0 by {
      assert 3.0 / h1 * dy1 == 3.0 * (dy1 / h1);
      assert 3.0 / h0 * dy0 == 3.0 * (dy0 / h0);
    }
    assert p00 + 2.0 * p01 + 2.0 * p11 + p12 == alpha by {
      assert 2.0 * (h0 + h1) * c1 == 2.0 * p01 + 2.0 * p11;
    }
    assert 3.0 * d0 * h0 == c1 - c0;
    assert 3.0 * d0 * (h0 * h0) == p01 - p00 by {
      assert 3.0 * d0 * (h0 * h0) == (3.0 * d0 * h0) * h0;
    }
    assert 2.0 * c0 * h0 == 2.0 * p00;
  }

  /** compute_spline_coefficients. */
  method SplineCoefficients(xs: seq<real>, ys: seq<real>, kind: InterpolationType) returns (co: Coefficients)
    requires |xs| == |ys| >= 2 && SplineReady(xs, kind)
    ensures !kind.IsSpline() ==> co == Coefficients([], [], [])
    ensures kind.IsSpline() ==>
      && |co.b| == |xs| - 1 && |co.c| >= |xs| - 1 && |co.d| == |xs| - 1
      && co.c[0] == 0.0
      && MeetsNodes(xs, ys, co)
    ensures kind.Linear? ==> co == LinearCoefficients(xs, ys)
    ensures kind.Quadratic? ==> co == Coefficients(QuadraticB(xs, ys), QuadraticC(xs, ys), Zeros(|xs| - 1))
    ensures kind.Cubic? ==>
      && |co.c| == |xs| && co.c[|xs| - 1] == 0.0
      && SlopeContinuous(Diffs(xs), co) && CurvatureContinuous(Diffs(xs), co)
  {
    match kind
    case ConstantBackward =>
      co := Coefficients([], [], []);
    case ConstantForward =>
      co := Coefficients([], [], []);
    case Linear =>
      co := LinearCoefficients(xs, ys);
    case Quadratic =>
      co := QuadraticCoefficients(xs, ys);
    case Cubic =>
      co := CubicCoefficients(xs, ys);
  }

  /** Interpolator::new. */
  method New(xs: seq<real>, ys: seq<real>, kind: InterpolationType, extrapolation: ExtrapolationStrategy)
    returns (itp: Interpolator)
    requires |xs| == |ys| >= 2 && SplineReady(xs, kind)
    ensures Valid(itp)
    ensures itp.xs == xs && itp.ys == ys && itp.kind == kind && itp.extrapolation == extrapolation
    ensures kind.IsSpline() ==> MeetsNodes(xs, ys, Coefficients(itp.b, itp.c, itp.d))
    ensures !kind.IsSpline() ==> itp.b == [] && itp.c == [] && itp.d == []
    ensures kind.Linear? ==> Coefficients(itp.b, itp.c, itp.d) == LinearCoefficients(xs, ys)
    ensures kind.Quadratic? ==> itp.b == QuadraticB(xs, ys) && itp.c == QuadraticC(xs, ys) && itp.d == Zeros(|xs| - 1)
    ensures kind.Cubic? ==>
      && |itp.c| == |xs| && itp.c[0] == 0.0 && itp.c[|xs| - 1] == 0.0
      && SlopeContinuous(Diffs(xs), Coefficients(itp.b, itp.c, itp.d))
      && CurvatureContinuous(Diffs(xs), Coefficients(itp.b, itp.c, itp.d))
  {
    var co := SplineCoefficients(xs, ys, kind);
    itp := Interpolator(xs, ys, co.b, co.c, co.d, kind, extrapolation);
  }
}
