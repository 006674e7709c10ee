/** Flattening an N-tuple of grid indices into one offset of the sample array.
    `natord` is row-major (last axis fastest); `rnatord` is the reverse
    (first axis fastest). */
module IndexOrder {

  /** Product of all sizes: the number of grid points. */
  function Product(sizes: seq<nat>): nat
  {
    if |sizes| == 0 then 1 else sizes[0] * Product(sizes[1..])
  }

  /** Row-major offset: sum over i of indices[i] times the product of the
      sizes of the axes after i. */
  function Offset(sizes: seq<nat>, indices: seq<nat>): nat
    requires |sizes| == |indices|
  {
    if |indices| == 0 then 0
    else indices[0] * Product(sizes[1..]) + Offset(sizes[1..], indices[1..])
  }

  /** Reverse-order offset: sum over i of indices[i] times the product of the
      sizes of the axes before i. */
  function ROffset(sizes: seq<nat>, indices: seq<nat>): nat
    requires |sizes| == |indices|
  {
    if |indices| == 0 then 0
    else
      var k := |indices| - 1;
      ROffset(sizes[..k], indices[..k]) + indices[k] * Product(sizes[..k])
  }

  /** Every index is inside its axis. */
  ghost predicate InRange(sizes: seq<nat>, indices: seq<nat>)
  {
    |sizes| == |indices| && forall i :: 0 <= i < |indices| ==> indices[i] < sizes[i]
  }

  /** The `natord` loop: starts from the last index and walks towards axis 0,
      multiplying the running stride by each axis size. */
  method NatOrd(nd: seq<nat>, indices: seq<nat>) returns (index: nat)
    requires |nd| == |indices| >= 1
    ensures index == Offset(nd, indices)
  {
    var i := |nd| - 1;
    var product := 1;
    index := indices[i];
    assert nd[i..][1..] == [] && indices[i..][1..] == [];
    while i > 0
      invariant 0 <= i < |nd|
      invariant product == Product(nd[i + 1..])
      invariant index == Offset(nd[i..], indices[i..])
    {
      assert nd[i..][1..] == nd[i + 1..];
      product := product * nd[i];
      i := i - 1;
      index := index + indices[i] * product;
      assert nd[i..][1..] == nd[i + 1..] && indices[i..][1..] == indices[i + 1..];
    }
    assert nd[0..] == nd && indices[0..] == indices;
  }

  /** The `rnatord` loop: starts from index 0 and walks towards the last axis. */
  method RNatOrd(nd: seq<nat>, indices: seq<nat>) returns (index: nat)
    requires |nd| == |indices| >= 1
    ensures index == ROffset(nd, indices)
  {
    var i := 0;
    var product := 1;
    index := indices[i];
    assert nd[..1][..0] == [] && indices[..1][..0] == [];
    while i < |nd| - 1
      invariant 0 <= i < |nd|
      invariant product == Product(nd[..i])
      invariant index == ROffset(nd[..i + 1], indices[..i + 1])
    {
      ProductSnoc(nd[..i + 1]);
      assert nd[..i + 1][..i] == nd[..i];
      product := product * nd[i];
      i := i + 1;
      index := index + indices[i] * product;
      assert nd[..i + 1][..i] == nd[..i] && indices[..i + 1][..i] == indices[..i];
    }
    assert nd[..|nd|] == nd && indices[..|indices|] == indices;
  }

  /** The product can be peeled off at the end as well as at the front. */
  lemma {:induction false} ProductSnoc(sizes: seq<nat>)
    requires |sizes| >= 1
    ensures Product(sizes) == Product(sizes[..|sizes| - 1]) * sizes[|sizes| - 1]
  {
    if |sizes| > 1 {
      var k := |sizes| - 1;
      ProductSnoc(sizes[1..]);
      assert sizes[1..][..k - 1] == sizes[..k][1..];
      calc {
        Product(sizes);
        sizes[0] * Product(sizes[1..]);
        sizes[0] * (Product(sizes[..k][1..]) * sizes[k]);
        (sizes[0] * Product(sizes[..k][1..])) * sizes[k];
      }
    } else {
      assert sizes[1..] == [] && sizes[..0] == [];
    }
  }

  /** If q < m and r < m, then a grid point with digit q in base m on top of
      remainder r is below (q + 1) * m. */
  lemma MixedRadixStep(q: nat, m: nat, r: nat, n: nat)
    requires q < n && r < m
    ensures q * m + r < n * m
  {
    assert q * m + m == (q + 1) * m;
    assert (q + 1) * m <= n * m;
  }

  /** A row-major offset of in-range indices addresses a grid point: it is
      below the number of samples. */
  lemma {:induction false} OffsetBound(sizes: seq<nat>, indices: seq<nat>)
    requires InRange(sizes, indices)
    ensures Offset(sizes, indices) < Product(sizes)
  {
    if |indices| > 0 {
      OffsetBound(sizes[1..], indices[1..]);
      MixedRadixStep(indices[0], Product(sizes[1..]), Offset(sizes[1..], indices[1..]), sizes[0]);
    }
  }

  /** Two in-range index tuples with the same row-major offset are equal: no
      two grid points share a sample. */
  lemma {:induction false} OffsetInjective(sizes: seq<nat>, a: seq<nat>, b: seq<nat>)
    requires InRange(sizes, a) && InRange(sizes, b)
    requires Offset(sizes, a) == Offset(sizes, b)
    ensures a == b
  {
    if |a| > 0 {
      var m := Product(sizes[1..]);
      var ra, rb := Offset(sizes[1..], a[1..]), Offset(sizes[1..], b[1..]);
      OffsetBound(sizes[1..], a[1..]);
      OffsetBound(sizes[1..], b[1..]);
      if a[0] < b[0] {
        MixedRadixStep(a[0], m, ra, b[0]);
        assert false;
      } else if b[0] < a[0] {
        MixedRadixStep(b[0], m, rb, a[0]);
        assert false;
      }
      assert ra == rb;
      OffsetInjective(sizes[1..], a[1..], b[1..]);
      assert a == [a[0]] + a[1..] && b == [b[0]] + b[1..];
    }
  }

  /** A reverse-order offset of in-range indices is below the number of samples. */
  lemma {:induction false} ROffsetBound(sizes: seq<nat>, indices: seq<nat>)
    requires InRange(sizes, indices)
    ensures ROffset(sizes, indices) < Product(sizes)
  {
    if |indices| > 0 {
      var k := |indices| - 1;
      var m, r := Product(sizes[..k]), ROffset(sizes[..k], indices[..k]);
      assert InRange(sizes[..k], indices[..k]);
      ROffsetBound(sizes[..k], indices[..k]);
      ProductSnoc(sizes);
      MixedRadixStep(indices[k], m, r, sizes[k]);
      assert ROffset(sizes, indices) == r + indices[k] * m;
      assert indices[k] * m == m * indices[k] && sizes[k] * m == m * sizes[k];
    }
  }

  /** `natord` over the sizes and indices in reverse order is `rnatord`:
      the two schemes differ only in which end varies fastest. */
  lemma {:induction false} ROffsetIsReversedOffset(sizes: seq<nat>, indices: seq<nat>)
    requires |sizes| == |indices|
    ensures ROffset(sizes, indices) == Offset(Reverse(sizes), Reverse(indices))
  {
    if |indices| > 0 {
      var k := |indices| - 1;
      ROffsetIsReversedOffset(sizes[..k], indices[..k]);
      ReverseProduct(sizes[..k]);
      assert Reverse(sizes)[1..] == Reverse(sizes[..k]);
      assert Reverse(indices)[1..] == Reverse(indices[..k]);
    }
  }

  /** A sequence read back to front. */
  function Reverse<T>(s: seq<T>): (r: seq<T>)
    ensures |r| == |s|
  {
    if |s| == 0 then [] else [s[|s| - 1]] + Reverse(s[..|s| - 1])
  }

  /** Reversing does not change the product. */
  lemma {:induction false} ReverseProduct(sizes: seq<nat>)
    ensures Product(Reverse(sizes)) == Product(sizes)
  {
    if |sizes| > 0 {
      var k := |sizes| - 1;
      ReverseProduct(sizes[..k]);
      ProductSnoc(sizes);
      assert Reverse(sizes)[1..] == Reverse(sizes[..k]);
    }
  }
}
