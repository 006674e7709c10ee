/** The N-dimensional multilinear lookup table: its axes, cached axis sizes,
    flat sample array and boundary policy, and its two query forms. */
module Lookup {
  import opened Boundary
  import opened AxisSearch
  import opened IndexOrder
  import opened Corners
  import opened Products

  /** Why a query yields no value. */
  datatype QueryError = DimensionMismatch | OutOfBounds

  datatype Result<T> = Ok(value: T) | Err(error: QueryError)

  /** An axis a query can bracket on: at least two strictly increasing ticks. */
  ghost predicate WellFormedAxis(axis: seq<real>)
  {
    |axis| >= 2 && StrictlyIncreasing(axis)
  }

  /** A table with n well-formed axes whose sizes are cached and whose sample
      array holds one value per grid point, in row-major order. */
  ghost predicate Shape(n: nat, axes: seq<seq<real>>, sizes: seq<nat>, data: seq<real>)
  {
    |axes| == n >= 1 && |sizes| == n &&
    (forall i :: 0 <= i < n ==> WellFormedAxis(axes[i]) && sizes[i] == |axes[i]|) &&
    |data| == Product(sizes)
  }

  /** The search outcome on every axis, each on its own coordinate. */
  function Outcomes(lower: BoundaryMode, upper: BoundaryMode, axes: seq<seq<real>>, input: seq<real>): (os: seq<Outcome>)
    requires |input| == |axes| && forall i :: 0 <= i < |axes| ==> Searchable(axes[i])
    ensures |os| == |axes|
  {
    seq(|axes|, i requires 0 <= i < |axes| => Search(lower, upper, axes[i], input[i]))
  }

  /** Bracket indices in the zero-initialised buffer after all searches. */
  function Mids(os: seq<Outcome>): (mids: seq<nat>)
    ensures |mids| == |os|
  {
    seq(|os|, i requires 0 <= i < |os| => SlotMid(os[i]))
  }

  /** Weights in the zero-initialised buffer after all searches. */
  function Ws(os: seq<Outcome>): (ws: seq<real>)
    ensures |ws| == |os|
  {
    seq(|os|, i requires 0 <= i < |os| => SlotWeight(os[i]))
  }

  lemma OutcomesFit(lower: BoundaryMode, upper: BoundaryMode, axes: seq<seq<real>>, sizes: seq<nat>, data: seq<real>, input: seq<real>)
    requires Shape(|axes|, axes, sizes, data) && |input| == |axes|
    ensures Shaped(Mids(Outcomes(lower, upper, axes, input)), Ws(Outcomes(lower, upper, axes, input)), sizes, data)
  {
    var os := Outcomes(lower, upper, axes, input);
    forall i | 0 <= i < |axes|
      ensures Mids(os)[i] + 1 < sizes[i]
    {
      SlotFits(lower, upper, axes[i], input[i]);
    }
  }

  /** The vector query: a dimension check, a search per axis, a failure if any
      search failed, and otherwise the sum over all 2^n masks of the corner
      weight times the corner sample, skipping weights not above epsilon. */
  ghost function Query(n: nat, lower: BoundaryMode, upper: BoundaryMode, axes: seq<seq<real>>,
                       sizes: seq<nat>, data: seq<real>, input: seq<real>): Result<real>
    requires Shape(n, axes, sizes, data)
  {
    if |input| != n then Err(DimensionMismatch)
    else
      var os := Outcomes(lower, upper, axes, input);
      if exists i :: 0 <= i < n && os[i] == OutOfRange then Err(OutOfBounds)
      else
        OutcomesFit(lower, upper, axes, sizes, data, input);
        Ok(CornerSum(Mids(os), Ws(os), sizes, data, Pow2(n)))
  }

  /** The sample a, plus the fraction w of the step from a to b. */
  function Lerp(a: real, b: real, w: real): real
  {
    a + (b - a) * w
  }

  /** The scalar query on the first axis: a failed search fails, otherwise the
      sample at the bracket plus the weighted step to the next sample, or the
      sample alone when there is no next tick. */
  ghost function ScalarQuery(lower: BoundaryMode, upper: BoundaryMode, axis: seq<real>, data: seq<real>, input: real): Result<real>
    requires Defined(lower, upper, axis, input) && |data| >= |axis| && |data| >= 1
  {
    var o := Search(lower, upper, axis, input);
    if o == OutOfRange then Err(OutOfBounds)
    else
      var l := SlotMid(o);
      if l + 1 < |axis| then Ok(Lerp(data[l], data[l + 1], SlotWeight(o)))
      else Ok(data[l])
  }

  /** A coordinate lies on a side of its axis whose mode is Error (the last
      tick counts as the upper side). */
  ghost predicate Rejected(lower: BoundaryMode, upper: BoundaryMode, axis: seq<real>, value: real)
    requires |axis| >= 1
  {
    (value >= axis[|axis| - 1] && upper == Error) || (value < axis[0] && lower == Error)
  }

  // ---------------------------------------------------------------------
  // Properties of the vector query

  /** The vector query fails on a wrong input length, and otherwise fails
      exactly when some coordinate lies on a side whose mode is Error. */
  lemma QueryFails(n: nat, lower: BoundaryMode, upper: BoundaryMode, axes: seq<seq<real>>,
                   sizes: seq<nat>, data: seq<real>, input: seq<real>)
    requires Shape(n, axes, sizes, data)
    ensures Query(n, lower, upper, axes, sizes, data, input) == Err(DimensionMismatch) <==> |input| != n
    ensures Query(n, lower, upper, axes, sizes, data, input) == Err(OutOfBounds) <==>
      |input| == n && exists i :: 0 <= i < n && Rejected(lower, upper, axes[i], input[i])
  {
    if |input| == n {
      var os := Outcomes(lower, upper, axes, input);
      forall i | 0 <= i < n
        ensures os[i] == OutOfRange <==> Rejected(lower, upper, axes[i], input[i])
      {
        SearchFailsIff(lower, upper, axes[i], input[i]);
      }
    }
  }

  /** A query on a grid point returns the sample stored for that point, as
      long as the upper mode lets the last tick through or no coordinate is
      the last tick of its axis (so the default Error/Error policy is covered
      away from the last ticks). */
  lemma QueryOnGrid(n: nat, lower: BoundaryMode, upper: BoundaryMode, axes: seq<seq<real>>,
                    sizes: seq<nat>, data: seq<real>, ks: seq<nat>, input: seq<real>)
    requires Shape(n, axes, sizes, data)
    requires InRange(sizes, ks) && |input| == n
    requires upper != Error || forall i :: 0 <= i < n ==> ks[i] + 1 < sizes[i]
    requires forall i :: 0 <= i < n ==> input[i] == axes[i][ks[i]]
    ensures Offset(sizes, ks) < |data| &&
      Query(n, lower, upper, axes, sizes, data, input) == Ok(data[Offset(sizes, ks)])
  {
    OffsetBound(sizes, ks);
    var os := Outcomes(lower, upper, axes, input);
    var mids, ws := Mids(os), Ws(os);
    GridBrackets(n, lower, upper, axes, ks, input);
    OutcomesFit(lower, upper, axes, sizes, data, input);
    assert Query(n, lower, upper, axes, sizes, data, input) == Ok(CornerSum(mids, ws, sizes, data, Pow2(n)));
    assert OnTicks(ws);
    CornerSumOnTicks(mids, ws, sizes, data);
    TickCorner(mids, ws, ks);
  }

  /** The corner of the tick mask is the grid point the weights sit on. */
  lemma TickCorner(mids: seq<nat>, ws: seq<real>, ks: seq<nat>)
    requires |mids| == |ws| == |ks|
    requires forall i :: 0 <= i < |ks| ==> (ws[i] == 0.0 && mids[i] == ks[i]) || (ws[i] == 1.0 && mids[i] + 1 == ks[i])
    requires forall i :: 0 <= i < |mids| ==> Corner(mids, TickMask(ws))[i] == if ws[i] == 1.0 then mids[i] + 1 else mids[i]
    ensures Corner(mids, TickMask(ws)) == ks
  {
  }

  /** On a grid point every search succeeds with weight 0 on the tick itself
      or weight 1 on the bracket below it. */
  lemma GridBrackets(n: nat, lower: BoundaryMode, upper: BoundaryMode, axes: seq<seq<real>>,
                     ks: seq<nat>, input: seq<real>)
    requires |axes| == n && |ks| == n && |input| == n
    requires forall i :: 0 <= i < n ==> |axes[i]| >= 2 && StrictlyIncreasing(axes[i]) && ks[i] < |axes[i]|
    requires upper != Error || forall i :: 0 <= i < n ==> ks[i] + 1 < |axes[i]|
    requires forall i :: 0 <= i < n ==> input[i] == axes[i][ks[i]]
    ensures var os := Outcomes(lower, upper, axes, input);
      forall i :: 0 <= i < n ==>
        os[i] != OutOfRange &&
        ((Ws(os)[i] == 0.0 && Mids(os)[i] == ks[i]) || (Ws(os)[i] == 1.0 && Mids(os)[i] + 1 == ks[i]))
  {
    var os := Outcomes(lower, upper, axes, input);
    forall i | 0 <= i < n
      ensures os[i] != OutOfRange
      ensures (Ws(os)[i] == 0.0 && Mids(os)[i] == ks[i]) || (Ws(os)[i] == 1.0 && Mids(os)[i] + 1 == ks[i])
    {
      if upper == Error {
        assert axes[i][ks[i]] < axes[i][|axes[i]| - 1];
      }
      SearchFailsIff(lower, upper, axes[i], input[i]);
      SearchAtTick(lower, upper, axes[i], ks[i]);
    }
  }

  /** A table holding one value everywhere returns it wherever the query
      succeeds and every corner factor is 0 or above epsilon: none is skipped,
      and none is negative, as Linear extrapolation makes some. */
  lemma ConstantTable(n: nat, lower: BoundaryMode, upper: BoundaryMode, axes: seq<seq<real>>,
                      sizes: seq<nat>, data: seq<real>, input: seq<real>, c: real)
    requires Shape(n, axes, sizes, data) && |input| == n
    requires forall k :: 0 <= k < |data| ==> data[k] == c
    requires var ws := Ws(Outcomes(lower, upper, axes, input));
      forall s :: 0 <= s < Pow2(n) ==> Factor(ws, s, n) == 0.0 || Factor(ws, s, n) > Epsilon
    ensures Query(n, lower, upper, axes, sizes, data, input).Ok? ==>
      Query(n, lower, upper, axes, sizes, data, input) == Ok(c)
  {
    var os := Outcomes(lower, upper, axes, input);
    OutcomesFit(lower, upper, axes, sizes, data, input);
    SkipIsExact(Mids(os), Ws(os), sizes, data, Pow2(n));
    ConstantReproduced(Mids(os), Ws(os), sizes, data, c);
  }

  /** The value of tick k of axis i under the line a[i] * x + b[i] (0 off
      the table). */
  function LineTicks(a: seq<real>, b: seq<real>, axes: seq<seq<real>>): (nat, nat) -> real
  {
    (i: nat, k: nat) => if i < |a| && i < |b| && i < |axes| && k < |axes[i]| then Line(a[i], b[i], axes[i][k]) else 0.0
  }

  /** The product over the first k coordinates of a[i] * x[i] + b[i]. */
  function LinesAt(a: seq<real>, b: seq<real>, x: seq<real>, k: nat): real
    requires k <= |a| && k <= |b| && k <= |x|
  {
    if k == 0 then 1.0 else LinesAt(a, b, x, k - 1) * Line(a[k - 1], b[k - 1], x[k - 1])
  }

  /** A table whose samples are a product of one line per axis is reproduced
      exactly inside the grid, off the grid points too, wherever every corner
      factor is 0 or above epsilon: the query is the product of the lines at
      the input. */
  lemma LineProductTable(n: nat, lower: BoundaryMode, upper: BoundaryMode, axes: seq<seq<real>>,
                         sizes: seq<nat>, data: seq<real>, input: seq<real>, a: seq<real>, b: seq<real>)
    requires Shape(n, axes, sizes, data) && |input| == n && |a| == n && |b| == n
    requires ProductTable(LineTicks(a, b, axes), sizes, data)
    requires forall i :: 0 <= i < n ==> axes[i][0] <= input[i] < axes[i][|axes[i]| - 1]
    requires var ws := Ws(Outcomes(lower, upper, axes, input));
      forall s :: 0 <= s < Pow2(n) ==> Factor(ws, s, n) == 0.0 || Factor(ws, s, n) > Epsilon
    ensures Query(n, lower, upper, axes, sizes, data, input) == Ok(LinesAt(a, b, input, n))
  {
    var os := Outcomes(lower, upper, axes, input);
    var h := LineTicks(a, b, axes);
    forall i | 0 <= i < n
      ensures os[i] != OutOfRange
    {
      SearchFailsIff(lower, upper, axes[i], input[i]);
    }
    OutcomesFit(lower, upper, axes, sizes, data, input);
    assert Query(n, lower, upper, axes, sizes, data, input) == Ok(CornerSum(Mids(os), Ws(os), sizes, data, Pow2(n)));
    SkipIsExact(Mids(os), Ws(os), sizes, data, Pow2(n));
    ProductReproduced(Mids(os), Ws(os), sizes, data, h);
    forall i | 0 <= i < n
      ensures Blend(Ws(os), h, Mids(os), i) == Line(a[i], b[i], input[i])
    {
      BlendOnLine(lower, upper, axes, input, a, b, i);
    }
    BlendsOnLines(Ws(os), h, Mids(os), a, b, input, n);
  }

  /** Blends that each equal their axis's line at the input multiply out to
      the product of the lines. */
  lemma {:induction false} BlendsOnLines(ws: seq<real>, h: (nat, nat) -> real, mids: seq<nat>,
                                         a: seq<real>, b: seq<real>, input: seq<real>, k: nat)
    requires k <= |ws| && k <= |mids| && k <= |a| && k <= |b| && k <= |input|
    requires forall i :: 0 <= i < k ==> Blend(ws, h, mids, i) == Line(a[i], b[i], input[i])
    ensures BlendProduct(ws, h, mids, k) == LinesAt(a, b, input, k)
  {
    if k > 0 {
      BlendsOnLines(ws, h, mids, a, b, input, k - 1);
    }
  }

  /** Inside axis i the blend of its two bracketing ticks of a line is the
      line at the input. */
  lemma BlendOnLine(lower: BoundaryMode, upper: BoundaryMode, axes: seq<seq<real>>,
                    input: seq<real>, a: seq<real>, b: seq<real>, i: nat)
    requires |input| == |axes| && |a| == |axes| && |b| == |axes| && i < |axes|
    requires forall j :: 0 <= j < |axes| ==> |axes[j]| >= 2 && StrictlyIncreasing(axes[j])
    requires axes[i][0] <= input[i] < axes[i][|axes[i]| - 1]
    ensures var os := Outcomes(lower, upper, axes, input);
      Blend(Ws(os), LineTicks(a, b, axes), Mids(os), i) == Line(a[i], b[i], input[i])
  {
    var os := Outcomes(lower, upper, axes, input);
    var axis := axes[i];
    var o := Search(lower, upper, axis, input[i]);
    assert os[i] == o;
    SlotFits(lower, upper, axis, input[i]);
    var l, w := SlotMid(o), SlotWeight(o);
    var line := seq(|axis|, k requires 0 <= k < |axis| => Line(a[i], b[i], axis[k]));
    ScalarExactInside(lower, upper, axis, line, input[i], a[i], b[i]);
    assert Lerp(line[l], line[l + 1], w) == Line(a[i], b[i], input[i]);
    assert Ws(os)[i] == w && Mids(os)[i] == l;
    assert LineTicks(a, b, axes)(i, CornerIndex(l, true)) == line[l];
    assert LineTicks(a, b, axes)(i, CornerIndex(l, false)) == line[l + 1];
    PairIsLerp(line[l], line[l + 1], w);
  }

  /** The two weighted ticks of a bracket add up to the interpolant. */
  lemma PairIsLerp(d0: real, d1: real, w: real)
    ensures AxisFactor(w, true) * d0 + AxisFactor(w, false) * d1 == Lerp(d0, d1, w)
  {
  }

  // ---------------------------------------------------------------------
  // Properties of the scalar query

  /** The scalar query fails exactly when the coordinate lies on a side of
      the first axis whose mode is Error. */
  lemma ScalarFails(lower: BoundaryMode, upper: BoundaryMode, axis: seq<real>, data: seq<real>, input: real)
    requires Defined(lower, upper, axis, input) && |data| >= |axis| && |data| >= 1
    ensures ScalarQuery(lower, upper, axis, data, input).Err? <==>
      |axis| >= 1 && Rejected(lower, upper, axis, input)
  {
    SearchFailsIff(lower, upper, axis, input);
  }

  /** On a single-tick axis the scalar query either fails or, having no next
      tick to step to, returns the first sample as it is. */
  lemma ScalarOneTick(lower: BoundaryMode, upper: BoundaryMode, axis: seq<real>, data: seq<real>, input: real)
    requires |axis| == 1 && Defined(lower, upper, axis, input) && |data| >= 1
    ensures ScalarQuery(lower, upper, axis, data, input) ==
      if input >= axis[0] || lower == Error then Err(OutOfBounds) else Ok(data[0])
  {
    OneTickSearch(lower, upper, axis, input);
  }

  /** Under the Constant policy on both sides the scalar query clamps: the
      first sample below the axis, the last sample at or above its end. */
  lemma ScalarClamps(axis: seq<real>, data: seq<real>, input: real)
    requires Searchable(axis) && |axis| >= 2 && |data| >= |axis|
    ensures input < axis[0] ==> ScalarQuery(Constant, Constant, axis, data, input) == Ok(data[0])
    ensures input >= axis[|axis| - 1] ==>
      ScalarQuery(Constant, Constant, axis, data, input) == Ok(data[|axis| - 1])
  {
  }

  /** The line a * x + b. */
  function Line(a: real, b: real, x: real): real
  {
    a * x + b
  }

  /** Samples taken from a line: a successful scalar query returns the line
      at the position its bracket stands for. */
  lemma ScalarOnLine(lower: BoundaryMode, upper: BoundaryMode, axis: seq<real>, data: seq<real>, input: real, a: real, b: real)
    requires Searchable(axis) && |axis| >= 2 && |data| >= |axis|
    requires forall k :: 0 <= k < |axis| ==> data[k] == Line(a, b, axis[k])
    ensures var o := Search(lower, upper, axis, input);
      o != OutOfRange ==>
        SlotMid(o) + 1 < |axis| &&
        ScalarQuery(lower, upper, axis, data, input) == Ok(Line(a, b, Position(axis, SlotMid(o), SlotWeight(o))))
  {
    var o := Search(lower, upper, axis, input);
    SlotFits(lower, upper, axis, input);
    if o != OutOfRange {
      LerpOnLine(axis, SlotMid(o), SlotWeight(o), a, b);
    }
  }

  /** Inside the axis the bracket stands for the input itself, so samples
      taken from a line are reproduced exactly. */
  lemma ScalarExactInside(lower: BoundaryMode, upper: BoundaryMode, axis: seq<real>, data: seq<real>, input: real, a: real, b: real)
    requires Searchable(axis) && |axis| >= 2 && |data| >= |axis|
    requires forall k :: 0 <= k < |axis| ==> data[k] == Line(a, b, axis[k])
    requires axis[0] <= input < axis[|axis| - 1]
    ensures ScalarQuery(lower, upper, axis, data, input) == Ok(Line(a, b, input))
  {
    var o := Search(lower, upper, axis, input);
    ScalarOnLine(lower, upper, axis, data, input, a, b);
    if axis[0] < input {
      InteriorBracket(lower, upper, axis, input);
    } else {
      DefaultsSurvive(lower, upper, axis, input);
    }
    assert Position(axis, SlotMid(o), SlotWeight(o)) == input;
  }

  /** Interpolating between two points of a line stays on the line. */
  lemma LerpOnLine(axis: seq<real>, l: nat, w: real, a: real, b: real)
    requires l + 1 < |axis|
    ensures Lerp(Line(a, b, axis[l]), Line(a, b, axis[l + 1]), w) == Line(a, b, Position(axis, l, w))
  {
    var x0, x1 := axis[l], axis[l + 1];
    calc {
      Lerp(a * x0 + b, a * x1 + b, w);
      a * x0 + b + (a * x1 - a * x0) * w;
      { assert (a * x1 - a * x0) * w == a * (w * (x1 - x0)); }
      a * (x0 + w * (x1 - x0)) + b;
    }
  }

  /** On one axis the vector query agrees with the scalar query whenever each
      of its two corner weights, 1 - w and w, is 0 or above epsilon: neither
      is skipped, and neither is a negative weight from Linear extrapolation. */
  lemma VectorMatchesScalar(lower: BoundaryMode, upper: BoundaryMode, axis: seq<real>, data: seq<real>, input: real)
    requires WellFormedAxis(axis) && |data| == |axis|
    requires var w := SlotWeight(Search(lower, upper, axis, input));
      (w == 0.0 || w > Epsilon) && (1.0 - w == 0.0 || 1.0 - w > Epsilon)
    ensures Shape(1, [axis], [|axis|], data)
    ensures Query(1, lower, upper, [axis], [|axis|], data, [input]) == ScalarQuery(lower, upper, axis, data, input)
  {
    ProductOfOne(|axis|);
    var o := Search(lower, upper, axis, input);
    var os := Outcomes(lower, upper, [axis], [input]);
    assert os == [o];
    if o != OutOfRange {
      BracketMatchesScalar(lower, upper, axis, data, input);
    } else {
      assert os[0] == OutOfRange;
    }
  }

  lemma BracketMatchesScalar(lower: BoundaryMode, upper: BoundaryMode, axis: seq<real>, data: seq<real>, input: real)
    requires WellFormedAxis(axis) && |data| == |axis| && Product([|axis|]) == |axis|
    requires Search(lower, upper, axis, input) != OutOfRange
    requires var w := SlotWeight(Search(lower, upper, axis, input));
      (w == 0.0 || w > Epsilon) && (1.0 - w == 0.0 || 1.0 - w > Epsilon)
    ensures Query(1, lower, upper, [axis], [|axis|], data, [input]) == ScalarQuery(lower, upper, axis, data, input)
  {
    var n := |axis|;
    var o := Search(lower, upper, axis, input);
    var os := Outcomes(lower, upper, [axis], [input]);
    assert os == [o];
    SlotFits(lower, upper, axis, input);
    var l, w := SlotMid(o), SlotWeight(o);
    assert Mids(os) == [l] && Ws(os) == [w];
    OneAxisCornerSum(l, w, n, data);
    assert Query(1, lower, upper, [axis], [n], data, [input]) == Ok(CornerSum([l], [w], [n], data, Pow2(1)));
    assert ScalarQuery(lower, upper, axis, data, input) == Ok(Lerp(data[l], data[l + 1], w));
  }

  lemma ProductOfOne(n: nat)
    ensures Product([n]) == n
  {
    assert [n][1..] == [];
  }

  /** With one axis the two masks are 0 (upper tick, weight w) and 1 (lower
      tick, weight 1 - w). */
  lemma OneAxisCornerSum(l: nat, w: real, n: nat, data: seq<real>)
    requires l + 1 < n && |data| == n
    ensures Shaped([l], [w], [n], data)
    ensures CornerSum([l], [w], [n], data, Pow2(1))
         == (if w > Epsilon then w * data[l + 1] else 0.0) + (if 1.0 - w > Epsilon then (1.0 - w) * data[l] else 0.0)
    ensures (w == 0.0 || w > Epsilon) && (1.0 - w == 0.0 || 1.0 - w > Epsilon) ==>
      CornerSum([l], [w], [n], data, Pow2(1)) == Lerp(data[l], data[l + 1], w)
  {
    WeightedPair(data[l], data[l + 1], w);
    ProductOfOne(n);
    assert Pow2(1) == 2;
    assert Bit(1, 0) && !Bit(0, 0);
    assert Corner([l], 0) == [l + 1] && Corner([l], 1) == [l];
    assert [n][1..] == [] && [l][1..] == [] && [l + 1][1..] == [];
    assert Offset([n], [l + 1]) == l + 1 && Offset([n], [l]) == l;
    assert Factor([w], 1, 0) == 1.0 && Factor([w], 0, 0) == 1.0;
    assert Factor([w], 1, 1) == 1.0 * AxisFactor(w, true) == 1.0 - w;
    assert Factor([w], 0, 1) == 1.0 * AxisFactor(w, false) == w;
    assert CornerSample([l], [w], [n], data, 0) == data[l + 1];
    assert CornerSample([l], [w], [n], data, 1) == data[l];
    assert CornerSum([l], [w], [n], data, 1) == Term([l], [w], [n], data, 0);
  }

  /** The scalar step written as the two weighted corners the vector query
      adds, with a zero weight dropping its corner. */
  lemma WeightedPair(d0: real, d1: real, w: real)
    ensures (w == 0.0 || w > Epsilon) && (1.0 - w == 0.0 || 1.0 - w > Epsilon) ==>
      (if w > Epsilon then w * d1 else 0.0) + (if 1.0 - w > Epsilon then (1.0 - w) * d0 else 0.0) == Lerp(d0, d1, w)
  {
  }

  /** The lookup table. Axes are appended one at a time; the sample array is
      assigned directly by the owner; queries read the table and change
      nothing. */
  class LUT {
    const N: nat
    const boundaryPolicy: BoundaryPolicy
    var data: seq<real>
    var axes: seq<seq<real>>
    var axesSizes: seq<nat>

    /** The cached sizes are the lengths of the axes. */
    ghost predicate Valid()
      reads this
    {
      |axes| == |axesSizes| && forall k :: 0 <= k < |axes| ==> axesSizes[k] == |axes[k]|
    }

    /** An empty table of dimension n, both boundary modes Error. */
    constructor (n: nat)
      ensures N == n && Valid() && axes == [] && axesSizes == [] && data == []
      ensures fresh(boundaryPolicy) && boundaryPolicy.lower == Error && boundaryPolicy.upper == Error
    {
      N := n;
      boundaryPolicy := new BoundaryPolicy();
      data := [];
      axes := [];
      axesSizes := [];
    }

    /** `add_axis`: appends an axis and caches its length. */
    method AddAxis(axis: seq<real>)
      requires Valid()
      modifies this
      ensures Valid()
      ensures axes == old(axes) + [axis] && axesSizes == old(axesSizes) + [|axis|]
      ensures data == old(data)
    {
      axes := axes + [axis];
      axesSizes := axesSizes + [|axis|];
    }

    /** `axis(i)`: the i-th axis, whose length is the cached size. */
    function Axis(i: nat): (a: seq<real>)
      reads this
      requires Valid() && i < |axes|
      ensures |a| == axesSizes[i]
    {
      axes[i]
    }

    /** Scalar `operator()`: 1-D interpolation on the first axis. */
    method ValueAt(input: real) returns (r: Result<real>)
      requires N >= 1 && |axes| >= 1 && Defined(boundaryPolicy.lower, boundaryPolicy.upper, axes[0], input)
      requires |data| >= |axes[0]| && |data| >= 1
      ensures r == ScalarQuery(boundaryPolicy.lower, boundaryPolicy.upper, axes[0], data, input)
    {
      var bounds := new Bounds(N);
      SearchAxis(bounds, 0, boundaryPolicy, axes[0], input);
      if bounds.error {
        return Err(OutOfBounds);
      }
      var l := bounds.mid[0];
      if l + 1 < |axes[0]| {
        r := Ok(Lerp(data[l], data[l + 1], bounds.weight[0]));
      } else {
        r := Ok(data[l]);
      }
    }

    /** Vector `operator()`: N-dimensional multilinear interpolation. */
    method Value(input: seq<real>) returns (r: Result<real>)
      requires Valid() && Shape(N, axes, axesSizes, data)
      ensures r == Query(N, boundaryPolicy.lower, boundaryPolicy.upper, axes, axesSizes, data, input)
    {
      if |input| != N {
        return Err(DimensionMismatch);
      }
      ghost var os := Outcomes(boundaryPolicy.lower, boundaryPolicy.upper, axes, input);
      var bounds := new Bounds(N);
      for i := 0 to N
        invariant forall k :: 0 <= k < i ==> bounds.mid[k] == SlotMid(os[k]) && bounds.weight[k] == SlotWeight(os[k])
        invariant forall k :: i <= k < N ==> bounds.mid[k] == 0 && bounds.weight[k] == 0.0
        invariant bounds.error <==> exists k :: 0 <= k < i && os[k] == OutOfRange
      {
        SearchAxis(bounds, i, boundaryPolicy, axes[i], input[i]);
      }
      if bounds.error {
        return Err(OutOfBounds);
      }
      assert bounds.mid[..] == Mids(os) && bounds.weight[..] == Ws(os);
      OutcomesFit(boundaryPolicy.lower, boundaryPolicy.upper, axes, axesSizes, data, input);

      var output := Interpolate(bounds, axesSizes, data);
      return Ok(output);
    }
  }

  /** The corner loop of the vector query: for every mask, walk the axes to
      build the corner's indices and weight, and add the weighted sample when
      the weight is above epsilon. */
  method Interpolate(bounds: Bounds, sizes: seq<nat>, data: seq<real>) returns (output: real)
    requires bounds.mid.Length >= 1
    requires Shaped(bounds.mid[..], bounds.weight[..], sizes, data)
    ensures output == CornerSum(bounds.mid[..], bounds.weight[..], sizes, data, Pow2(bounds.mid.Length))
  {
    ghost var mids, ws := bounds.mid[..], bounds.weight[..];
    var n := bounds.mid.Length;
    output := 0.0;
    var buffer := new nat[n];
    for s := 0 to Pow2(n)
      invariant bounds.mid[..] == mids && bounds.weight[..] == ws
      invariant output == CornerSum(mids, ws, sizes, data, s)
    {
      var factor := 1.0;
      for i := 0 to n
        invariant bounds.mid[..] == mids && bounds.weight[..] == ws
        invariant factor == Factor(ws, s, i)
        invariant forall k :: 0 <= k < i ==> buffer[k] == CornerIndex(mids[k], Bit(s, k))
      {
        if Bit(s, i) {
          buffer[i] := bounds.mid[i];
          factor := factor * (1.0 - bounds.weight[i]);
        } else {
          buffer[i] := bounds.mid[i] + 1;
          factor := factor * bounds.weight[i];
        }
      }
      if factor > Epsilon {
        assert buffer[..] == Corner(mids, s);
        CornerInRange(mids, sizes, s);
        var k := NatOrd(sizes, buffer[..]);
        output := output + factor * data[k];
      }
    }
  }
}
