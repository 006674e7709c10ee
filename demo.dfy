/** The tables the repository's demo driver builds, queried at the driver's
    own points: a 1-D table of y = 2x with Linear extrapolation, and a 2-D
    table of x * y queried on and between its grid points. */
module Demo {
  import opened Boundary
  import opened AxisSearch
  import opened IndexOrder
  import opened Corners
  import opened Products
  import opened Lookup

  const Xs: seq<real> := [0.0, 1.0, 2.0, 3.0, 4.0, 5.0]
  const Ys: seq<real> := [0.0, 2.0, 4.0, 6.0, 8.0, 10.0]

  const Rows: seq<real> := [-1.0, 0.0, 1.0, 2.0, 3.0, 4.0, 5.0]
  const Cols: seq<real> := [-2.0, 0.0, 2.0, 4.0, 6.0, 8.0, 10.0]

  /** The 2-D samples in row-major order: grid point (i, j) holds
      Rows[i] * Cols[j]. */
  const Grid: seq<real> := seq(49, k requires 0 <= k < 49 => Rows[k / 7] * Cols[k % 7])

  lemma XsIncreasing()
    ensures StrictlyIncreasing(Xs)
  {
    forall i, j | 0 <= i < j < |Xs|
      ensures Xs[i] < Xs[j]
    {
      assert Xs[i] == i as real && Xs[j] == j as real;
    }
  }

  lemma GridAxesIncreasing()
    ensures StrictlyIncreasing(Rows) && StrictlyIncreasing(Cols)
  {
    forall i, j | 0 <= i < j < 7
      ensures Rows[i] < Rows[j] && Cols[i] < Cols[j]
    {
      assert Rows[i] == i as real - 1.0 && Rows[j] == j as real - 1.0;
      assert Cols[i] == 2.0 * (i as real - 1.0) && Cols[j] == 2.0 * (j as real - 1.0);
    }
  }

  /** The 1-D table: inside the axis the query follows y = 2x; above it the
      Linear weight 1 + |12 - 5| / 5 = 2.4 on the last bracket gives 12.8;
      below it the weight 1 + |-5 - 0| / 1 = 6 on the first bracket gives 12. */
  method OneDimensional() returns (inside: Result<real>, above: Result<real>, below: Result<real>)
    ensures inside == Ok(5.0) && above == Ok(12.8) && below == Ok(12.0)
  {
    XsIncreasing();
    var t := new LUT(1);
    t.boundaryPolicy.SetAll(Linear);
    t.AddAxis(Xs);
    t.data := Ys;
    ScalarInside();
    ScalarAbove();
    ScalarBelow();
    inside := t.ValueAt(2.5);
    above := t.ValueAt(12.0);
    below := t.ValueAt(-5.0);
  }

  lemma ScalarInside()
    requires StrictlyIncreasing(Xs)
    ensures ScalarQuery(Linear, Linear, Xs, Ys, 2.5) == Ok(5.0)
  {
    assert Search(Linear, Linear, Xs, 2.5) == Bracketed(2, 0.5);
  }

  lemma ScalarAbove()
    requires StrictlyIncreasing(Xs)
    ensures ScalarQuery(Linear, Linear, Xs, Ys, 12.0) == Ok(12.8)
  {
    assert Search(Linear, Linear, Xs, 12.0) == Bracketed(4, 2.4);
  }

  lemma ScalarBelow()
    requires StrictlyIncreasing(Xs)
    ensures ScalarQuery(Linear, Linear, Xs, Ys, -5.0) == Ok(12.0)
  {
    assert Search(Linear, Linear, Xs, -5.0) == Bracketed(0, 6.0);
  }

  /** The same table queried through the vector form: above the axis the
      lower corner's weight 1 - 2.4 is negative and skipped, so the result is
      2.4 * 10 = 24 rather than the scalar form's 12.8. */
  method OneDimensionalVector() returns (above: Result<real>)
    ensures above == Ok(24.0)
  {
    XsIncreasing();
    var t := new LUT(1);
    t.boundaryPolicy.SetAll(Linear);
    t.AddAxis(Xs);
    t.data := Ys;
    ProductOfOne(6);
    VectorAbove();
    assert t.axes == [Xs] && t.axesSizes == [6];
    above := t.Value([12.0]);
  }

  lemma VectorAbove()
    requires StrictlyIncreasing(Xs)
    ensures Shape(1, [Xs], [6], Ys)
    ensures Query(1, Linear, Linear, [Xs], [6], Ys, [12.0]) == Ok(24.0)
  {
    ProductOfOne(6);
    var os := Outcomes(Linear, Linear, [Xs], [12.0]);
    assert os[0] == Search(Linear, Linear, Xs, 12.0) == Bracketed(4, 2.4);
    assert Mids(os) == [4] && Ws(os) == [2.4];
    OneAxisCornerSum(4, 2.4, 6, Ys);
    assert Query(1, Linear, Linear, [Xs], [6], Ys, [12.0]) == Ok(CornerSum([4], [2.4], [6], Ys, Pow2(1)));
  }

  /** The 2-D table at two of the driver's grid points: (1, 0) holds 1 * 0
      and (5, 10), on the last tick of both axes, holds 5 * 10. */
  method TwoDimensional() returns (origin: Result<real>, corner: Result<real>)
    ensures origin == Ok(0.0) && corner == Ok(50.0)
  {
    GridAxesIncreasing();
    var t := new LUT(2);
    t.boundaryPolicy.SetAll(Linear);
    t.AddAxis(Rows);
    t.AddAxis(Cols);
    t.data := Grid;
    GridPoints();
    assert t.axes == [Rows, Cols] && t.axesSizes == [7, 7];
    origin := t.Value([1.0, 0.0]);
    corner := t.Value([5.0, 10.0]);
  }

  /** The 2-D table between grid points: (2, 5.5) lies on row tick 2 and
      three quarters of the way from column tick 4 to 6, and the query
      returns 2 * 5.5. */
  method OffGrid() returns (r: Result<real>)
    ensures r == Ok(11.0)
  {
    GridAxesIncreasing();
    var t := new LUT(2);
    t.boundaryPolicy.SetAll(Linear);
    t.AddAxis(Rows);
    t.AddAxis(Cols);
    t.data := Grid;
    GridShape();
    OffGridQuery();
    assert t.axes == [Rows, Cols] && t.axesSizes == [7, 7];
    r := t.Value([2.0, 5.5]);
  }

  lemma OffGridQuery()
    requires StrictlyIncreasing(Rows) && StrictlyIncreasing(Cols)
    ensures Shape(2, [Rows, Cols], [7, 7], Grid)
    ensures Query(2, Linear, Linear, [Rows, Cols], [7, 7], Grid, [2.0, 5.5]) == Ok(11.0)
  {
    GridShape();
    OffGridWeights();
    NoCornerSkipped([0.0, 0.75]);
    GridIsProduct();
    LineProductTable(2, Linear, Linear, [Rows, Cols], [7, 7], Grid, [2.0, 5.5], [1.0, 1.0], [0.0, 0.0]);
  }

  /** Row 2 is tick 2 itself; column 5.5 is three quarters of the way from
      tick 4 to tick 6. */
  lemma OffGridWeights()
    requires StrictlyIncreasing(Rows) && StrictlyIncreasing(Cols)
    ensures Ws(Outcomes(Linear, Linear, [Rows, Cols], [2.0, 5.5])) == [0.0, 0.75]
  {
    var os := Outcomes(Linear, Linear, [Rows, Cols], [2.0, 5.5]);
    RowSearch();
    ColumnSearch();
    assert os[0] == Search(Linear, Linear, Rows, 2.0);
    assert os[1] == Search(Linear, Linear, Cols, 5.5);
  }

  lemma RowSearch()
    requires StrictlyIncreasing(Rows)
    ensures Search(Linear, Linear, Rows, 2.0) == Bracketed(3, 0.0)
  {
  }

  lemma ColumnSearch()
    requires StrictlyIncreasing(Cols)
    ensures Search(Linear, Linear, Cols, 5.5) == Bracketed(3, 0.75)
  {
  }

  /** With weights 0 and 0.75 every corner factor is 0, 0.25 or 0.75. */
  lemma NoCornerSkipped(ws: seq<real>)
    requires ws == [0.0, 0.75]
    ensures forall s :: 0 <= s < Pow2(2) ==> Factor(ws, s, 2) == 0.0 || Factor(ws, s, 2) > Epsilon
  {
    forall s | 0 <= s < Pow2(2)
      ensures Factor(ws, s, 2) == 0.0 || Factor(ws, s, 2) > Epsilon
    {
      assert Factor(ws, s, 1) == 1.0 * AxisFactor(0.0, Bit(s, 0));
      assert Factor(ws, s, 2) == Factor(ws, s, 1) * AxisFactor(0.75, Bit(s, 1));
    }
  }

  /** Every sample of the 2-D table is the product of its two ticks. */
  lemma GridIsProduct()
    ensures ProductTable(LineTicks([1.0, 1.0], [0.0, 0.0], [Rows, Cols]), [7, 7], Grid)
  {
    GridByPoints();
    ProductGrid(Rows, Cols, Grid);
  }

  lemma GridByPoints()
    ensures |Grid| == 49
    ensures forall i, j :: 0 <= i < 7 && 0 <= j < 7 ==> Point(Grid, i, j) == Rows[i] * Cols[j]
  {
    forall i, j | 0 <= i < 7 && 0 <= j < 7
      ensures Point(Grid, i, j) == Rows[i] * Cols[j]
    {
      SplitIndex(i, j);
    }
  }

  /** Point (i, j) of a 7 by 7 grid stored row by row. */
  function Point(g: seq<real>, i: nat, j: nat): real
    requires |g| == 49 && i < 7 && j < 7
  {
    g[i * 7 + j]
  }

  /** A 7 by 7 grid whose point (i, j) holds r[i] * c[j] is the product table
      of the lines y = x on both axes. */
  lemma ProductGrid(r: seq<real>, c: seq<real>, g: seq<real>)
    requires |r| == 7 && |c| == 7 && |g| == 49
    requires forall i, j :: 0 <= i < 7 && 0 <= j < 7 ==> Point(g, i, j) == r[i] * c[j]
    ensures ProductTable(LineTicks([1.0, 1.0], [0.0, 0.0], [r, c]), [7, 7], g)
  {
    forall ks | InRange([7, 7], ks) && Offset([7, 7], ks) < |g|
      ensures g[Offset([7, 7], ks)] == TickProduct(LineTicks([1.0, 1.0], [0.0, 0.0], [r, c]), ks, |ks|)
    {
      ProductGridPoint(r, c, g, ks);
    }
  }

  lemma ProductGridPoint(r: seq<real>, c: seq<real>, g: seq<real>, ks: seq<nat>)
    requires |r| == 7 && |c| == 7 && |g| == 49 && InRange([7, 7], ks)
    requires Point(g, ks[0], ks[1]) == r[ks[0]] * c[ks[1]]
    ensures Offset([7, 7], ks) < |g|
    ensures g[Offset([7, 7], ks)] == TickProduct(LineTicks([1.0, 1.0], [0.0, 0.0], [r, c]), ks, |ks|)
  {
    var h := LineTicks([1.0, 1.0], [0.0, 0.0], [r, c]);
    assert ks == [ks[0], ks[1]];
    OffsetOfPair(ks[0], ks[1]);
    TwoTicks(h, ks);
    assert At(h, 0, ks[0]) == r[ks[0]] && At(h, 1, ks[1]) == c[ks[1]];
  }

  /** Over two axes the tick product is the product of the two ticks. */
  lemma TwoTicks(h: (nat, nat) -> real, ks: seq<nat>)
    requires |ks| == 2
    ensures TickProduct(h, ks, |ks|) == At(h, 0, ks[0]) * At(h, 1, ks[1])
  {
    assert TickProduct(h, ks, 1) == 1.0 * At(h, 0, ks[0]);
  }

  lemma GridPoints()
    requires StrictlyIncreasing(Rows) && StrictlyIncreasing(Cols)
    ensures Shape(2, [Rows, Cols], [7, 7], Grid)
    ensures Query(2, Linear, Linear, [Rows, Cols], [7, 7], Grid, [1.0, 0.0]) == Ok(0.0)
    ensures Query(2, Linear, Linear, [Rows, Cols], [7, 7], Grid, [5.0, 10.0]) == Ok(50.0)
  {
    GridShape();
    GridOffset(2, 1);
    QueryOnGrid(2, Linear, Linear, [Rows, Cols], [7, 7], Grid, [2, 1], [1.0, 0.0]);
    GridOffset(6, 6);
    QueryOnGrid(2, Linear, Linear, [Rows, Cols], [7, 7], Grid, [6, 6], [5.0, 10.0]);
  }

  lemma GridShape()
    requires StrictlyIncreasing(Rows) && StrictlyIncreasing(Cols)
    ensures Shape(2, [Rows, Cols], [7, 7], Grid)
  {
    assert [7, 7][1..] == [7] && [7][1..] == [];
  }

  /** Grid point (i, j) sits at offset 7 i + j, which holds Rows[i] * Cols[j]. */
  lemma GridOffset(i: nat, j: nat)
    requires i < 7 && j < 7
    ensures InRange([7, 7], [i, j])
    ensures Offset([7, 7], [i, j]) == i * 7 + j < 49
    ensures Grid[Offset([7, 7], [i, j])] == Rows[i] * Cols[j]
  {
    OffsetOfPair(i, j);
    SplitIndex(i, j);
  }

  lemma OffsetOfPair(i: nat, j: nat)
    requires i < 7 && j < 7
    ensures InRange([7, 7], [i, j]) && Offset([7, 7], [i, j]) == i * 7 + j
  {
    ProductOfOne(7);
    assert [7, 7][1..] == [7] && [7][1..] == [] && [i, j][1..] == [j] && [j][1..] == [];
    assert Offset([7], [j]) == j;
  }

  lemma SplitIndex(i: nat, j: nat)
    requires i < 7 && j < 7
    ensures (i * 7 + j) / 7 == i && (i * 7 + j) % 7 == j
  {
    var k := i * 7 + j;
    assert k == 7 * (k / 7) + k % 7 && 0 <= k % 7 < 7;
  }
}
