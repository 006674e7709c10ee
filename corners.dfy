/** The 2^N corners of the hyper-rectangle around a query point, enumerated by
    the bits of a mask s, their weights, and the weighted sum of samples. */
module Corners {
  import opened IndexOrder

  /** Machine epsilon of `double` (2^-52): corners whose weight is not above
      it are skipped. */
  const Epsilon: real := 0.0000000000000002220446049250313080847263336181640625

  /** 2^n, the number of corners of an n-dimensional box (`1 << n`). */
  function Pow2(n: nat): (p: nat)
    ensures p >= 1
  {
    if n == 0 then 1 else 2 * Pow2(n - 1)
  }

  /** Bit i of s, the test `s & (1 << i)`. */
  predicate Bit(s: nat, i: nat)
  {
    if i == 0 then s % 2 == 1 else Bit(s / 2, i - 1)
  }

  /** The weight an axis contributes: a set bit picks the lower tick with
      `1 - weight`, a clear bit picks the upper tick with `weight`. */
  function AxisFactor(w: real, lowTick: bool): real
  {
    if lowTick then 1.0 - w else w
  }

  /** The tick an axis contributes: `mid` for a set bit, `mid + 1` otherwise. */
  function CornerIndex(mid: nat, lowTick: bool): nat
  {
    if lowTick then mid else mid + 1
  }

  /** Product of the first k axis factors of mask s, multiplied in axis order. */
  function Factor(ws: seq<real>, s: nat, k: nat): real
    requires k <= |ws|
  {
    if k == 0 then 1.0 else Factor(ws, s, k - 1) * AxisFactor(ws[k - 1], Bit(s, k - 1))
  }

  /** The grid indices of the corner selected by mask s. */
  function Corner(mids: seq<nat>, s: nat): (c: seq<nat>)
    ensures |c| == |mids|
  {
    seq(|mids|, i requires 0 <= i < |mids| => CornerIndex(mids[i], Bit(s, i)))
  }

  /** Every bracket leaves room for its upper tick. */
  ghost predicate Fits(mids: seq<nat>, sizes: seq<nat>)
  {
    |mids| == |sizes| && forall i :: 0 <= i < |mids| ==> mids[i] + 1 < sizes[i]
  }

  /** The brackets, weights, sizes and samples of one query agree in shape. */
  ghost predicate Shaped(mids: seq<nat>, ws: seq<real>, sizes: seq<nat>, data: seq<real>)
  {
    |ws| == |mids| && Fits(mids, sizes) && |data| == Product(sizes)
  }

  /** Every corner of brackets that fit is a grid point. */
  lemma CornerInRange(mids: seq<nat>, sizes: seq<nat>, s: nat)
    requires Fits(mids, sizes)
    ensures InRange(sizes, Corner(mids, s))
    ensures Offset(sizes, Corner(mids, s)) < Product(sizes)
  {
    OffsetBound(sizes, Corner(mids, s));
  }

  /** The sample at the corner of mask s. */
  function CornerSample(mids: seq<nat>, ws: seq<real>, sizes: seq<nat>, data: seq<real>, s: nat): real
    requires Shaped(mids, ws, sizes, data)
  {
    CornerInRange(mids, sizes, s);
    data[Offset(sizes, Corner(mids, s))]
  }

  /** What mask s adds to the output: its weighted sample, or nothing when its
      weight is not above epsilon. */
  function Term(mids: seq<nat>, ws: seq<real>, sizes: seq<nat>, data: seq<real>, s: nat): real
    requires Shaped(mids, ws, sizes, data)
  {
    var f := Factor(ws, s, |ws|);
    if f > Epsilon then f * CornerSample(mids, ws, sizes, data, s) else 0.0
  }

  /** The output accumulated over masks 0 .. count - 1. */
  function CornerSum(mids: seq<nat>, ws: seq<real>, sizes: seq<nat>, data: seq<real>, count: nat): real
    requires Shaped(mids, ws, sizes, data)
  {
    if count == 0 then 0.0
    else CornerSum(mids, ws, sizes, data, count - 1) + Term(mids, ws, sizes, data, count - 1)
  }

  /** Reference definition: the multilinear sum with no corner skipped. */
  function ExactSum(mids: seq<nat>, ws: seq<real>, sizes: seq<nat>, data: seq<real>, count: nat): real
    requires Shaped(mids, ws, sizes, data)
  {
    if count == 0 then 0.0
    else ExactSum(mids, ws, sizes, data, count - 1)
         + Factor(ws, count - 1, |ws|) * CornerSample(mids, ws, sizes, data, count - 1)
  }

  /** Skipping corners changes nothing when every weight is either zero or
      above epsilon. */
  lemma {:induction false} SkipIsExact(mids: seq<nat>, ws: seq<real>, sizes: seq<nat>, data: seq<real>, count: nat)
    requires Shaped(mids, ws, sizes, data)
    requires forall s :: 0 <= s < count ==> Factor(ws, s, |ws|) == 0.0 || Factor(ws, s, |ws|) > Epsilon
    ensures CornerSum(mids, ws, sizes, data, count) == ExactSum(mids, ws, sizes, data, count)
  {
    if count > 0 {
      SkipIsExact(mids, ws, sizes, data, count - 1);
    }
  }

  // ---------------------------------------------------------------------
  // Bits of masks

  lemma {:induction false} BitBelowPow(t: nat, k: nat)
    requires t < Pow2(k)
    ensures !Bit(t, k)
  {
    if k > 0 {
      BitBelowPow(t / 2, k - 1);
    }
  }

  lemma {:induction false} BitOfPowPlus(t: nat, k: nat)
    requires t < Pow2(k)
    ensures Bit(Pow2(k) + t, k)
  {
    if k > 0 {
      assert (Pow2(k) + t) / 2 == Pow2(k - 1) + t / 2;
      BitOfPowPlus(t / 2, k - 1);
    }
  }

  lemma {:induction false} BitsBelowPowUnchanged(t: nat, k: nat, i: nat)
    requires i < k
    ensures Bit(Pow2(k) + t, i) == Bit(t, i)
  {
    if i > 0 {
      assert (Pow2(k) + t) / 2 == Pow2(k - 1) + t / 2;
      BitsBelowPowUnchanged(t / 2, k - 1, i - 1);
    }
  }

  // ---------------------------------------------------------------------
  // Sums over masks, and the weights of all corners summing to one

  /** Sum of f over lo .. hi - 1. */
  function Sum(f: nat -> real, lo: nat, hi: nat): real
    decreases hi
  {
    if hi <= lo then 0.0 else Sum(f, lo, hi - 1) + f(hi - 1)
  }

  /** The factor over the first k axes, as a function of the mask. */
  function Weights(ws: seq<real>, k: nat): nat -> real
    requires k <= |ws|
  {
    (s: nat) => Factor(ws, s, k)
  }

  lemma {:induction false} SumSplit(f: nat -> real, lo: nat, mid: nat, hi: nat)
    requires lo <= mid <= hi
    ensures Sum(f, lo, hi) == Sum(f, lo, mid) + Sum(f, mid, hi)
    decreases hi
  {
    if hi > mid {
      SumSplit(f, lo, mid, hi - 1);
    }
  }

  lemma Distribute(c: real, a: real, b: real)
    ensures c * a + b * c == c * (a + b)
  {
  }

  /** A run lo .. lo + n - 1 of f whose values are those of g on 0 .. n - 1
      scaled by c sums to c times the sum of g. */
  lemma {:induction false} ShiftedSum(f: nat -> real, g: nat -> real, lo: nat, c: real, n: nat)
    requires forall t :: 0 <= t < n ==> f(lo + t) == g(t) * c
    ensures Sum(f, lo, lo + n) == c * Sum(g, 0, n)
    decreases n
  {
    if n > 0 {
      ShiftedSum(f, g, lo, c, n - 1);
      Distribute(c, Sum(g, 0, n - 1), g(n - 1));
    } else {
      assert c * Sum(g, 0, n) == 0.0;
    }
  }

  /** Product over the first k axes of what mask s chooses on each: axis i
      contributes ifSet[i] when bit i of s is set and ifClear[i] otherwise. */
  function Choice(ifSet: seq<real>, ifClear: seq<real>, s: nat, k: nat): real
    requires k <= |ifSet| && k <= |ifClear|
  {
    if k == 0 then 1.0
    else Choice(ifSet, ifClear, s, k - 1) * (if Bit(s, k - 1) then ifSet[k - 1] else ifClear[k - 1])
  }

  /** The choice products over the first k axes, as a function of the mask. */
  function Choices(ifSet: seq<real>, ifClear: seq<real>, k: nat): nat -> real
    requires k <= |ifSet| && k <= |ifClear|
  {
    (s: nat) => Choice(ifSet, ifClear, s, k)
  }

  /** Product over the first k axes of the sum of both choices on each. */
  function Expanded(ifSet: seq<real>, ifClear: seq<real>, k: nat): real
    requires k <= |ifSet| && k <= |ifClear|
  {
    if k == 0 then 1.0 else Expanded(ifSet, ifClear, k - 1) * (ifSet[k - 1] + ifClear[k - 1])
  }

  /** Adding 2^k to a mask does not change its choices on the first k axes. */
  lemma {:induction false} ChoiceIgnoresHighBits(ifSet: seq<real>, ifClear: seq<real>, t: nat, k: nat, j: nat)
    requires j <= k && j <= |ifSet| && j <= |ifClear|
    ensures Choice(ifSet, ifClear, Pow2(k) + t, j) == Choice(ifSet, ifClear, t, j)
  {
    if j > 0 {
      ChoiceIgnoresHighBits(ifSet, ifClear, t, k, j - 1);
      BitsBelowPowUnchanged(t, k, j - 1);
    }
  }

  /** A mask t below 2^(k-1) leaves bit k - 1 clear. */
  lemma LowChoice(ifSet: seq<real>, ifClear: seq<real>, k: nat, t: nat)
    requires 0 < k <= |ifSet| && k <= |ifClear| && t < Pow2(k - 1)
    ensures Choices(ifSet, ifClear, k)(t) == Choices(ifSet, ifClear, k - 1)(t) * ifClear[k - 1]
  {
    BitBelowPow(t, k - 1);
  }

  /** Mask 2^(k-1) + t sets bit k - 1 and agrees with t below it. */
  lemma HighChoice(ifSet: seq<real>, ifClear: seq<real>, k: nat, t: nat)
    requires 0 < k <= |ifSet| && k <= |ifClear| && t < Pow2(k - 1)
    ensures Choices(ifSet, ifClear, k)(Pow2(k - 1) + t) == Choices(ifSet, ifClear, k - 1)(t) * ifSet[k - 1]
  {
    BitOfPowPlus(t, k - 1);
    ChoiceIgnoresHighBits(ifSet, ifClear, t, k - 1, k - 1);
  }

  /** The low half of the masks over k axes: the masks over k - 1 axes, each
      times the choice of a clear bit k - 1. */
  lemma LowHalfChoices(ifSet: seq<real>, ifClear: seq<real>, k: nat)
    requires 0 < k <= |ifSet| && k <= |ifClear|
    ensures Sum(Choices(ifSet, ifClear, k), 0, Pow2(k - 1)) == ifClear[k - 1] * Sum(Choices(ifSet, ifClear, k - 1), 0, Pow2(k - 1))
  {
    var f, g, c := Choices(ifSet, ifClear, k), Choices(ifSet, ifClear, k - 1), ifClear[k - 1];
    forall t | 0 <= t < Pow2(k - 1)
      ensures f(0 + t) == g(t) * c
    {
      LowChoice(ifSet, ifClear, k, t);
    }
    ShiftedSum(f, g, 0, c, Pow2(k - 1));
  }

  /** The high half of the masks over k axes: the masks over k - 1 axes, each
      times the choice of a set bit k - 1. */
  lemma HighHalfChoices(ifSet: seq<real>, ifClear: seq<real>, k: nat)
    requires 0 < k <= |ifSet| && k <= |ifClear|
    ensures Sum(Choices(ifSet, ifClear, k), Pow2(k - 1), Pow2(k - 1) + Pow2(k - 1))
         == ifSet[k - 1] * Sum(Choices(ifSet, ifClear, k - 1), 0, Pow2(k - 1))
  {
    var f, g, c, m := Choices(ifSet, ifClear, k), Choices(ifSet, ifClear, k - 1), ifSet[k - 1], Pow2(k - 1);
    HighChoices(ifSet, ifClear, k, f, g, c, m);
    ShiftedSum(f, g, m, c, m);
  }

  lemma HighChoices(ifSet: seq<real>, ifClear: seq<real>, k: nat, f: nat -> real, g: nat -> real, c: real, m: nat)
    requires 0 < k <= |ifSet| && k <= |ifClear| && m == Pow2(k - 1) && c == ifSet[k - 1]
    requires f == Choices(ifSet, ifClear, k) && g == Choices(ifSet, ifClear, k - 1)
    ensures forall t :: 0 <= t < m ==> f(m + t) == g(t) * c
  {
    forall t | 0 <= t < m
      ensures f(m + t) == g(t) * c
    {
      HighChoice(ifSet, ifClear, k, t);
    }
  }

  /** Adding an axis multiplies the sum over the masks by the sum of that
      axis's two choices. */
  lemma ChoicesStep(ifSet: seq<real>, ifClear: seq<real>, k: nat)
    requires 0 < k <= |ifSet| && k <= |ifClear|
    ensures Sum(Choices(ifSet, ifClear, k), 0, Pow2(k))
         == Sum(Choices(ifSet, ifClear, k - 1), 0, Pow2(k - 1)) * (ifSet[k - 1] + ifClear[k - 1])
  {
    var m := Pow2(k - 1);
    SumSplit(Choices(ifSet, ifClear, k), 0, m, m + m);
    LowHalfChoices(ifSet, ifClear, k);
    HighHalfChoices(ifSet, ifClear, k);
    Factorise(ifClear[k - 1], ifSet[k - 1], Sum(Choices(ifSet, ifClear, k - 1), 0, m));
  }

  /** The 2^k masks make every combination of choices exactly once, so their
      products add up to the product of the per-axis sums. */
  lemma {:induction false} ChoicesExpand(ifSet: seq<real>, ifClear: seq<real>, k: nat)
    requires k <= |ifSet| && k <= |ifClear|
    ensures Sum(Choices(ifSet, ifClear, k), 0, Pow2(k)) == Expanded(ifSet, ifClear, k)
  {
    if k > 0 {
      ChoicesExpand(ifSet, ifClear, k - 1);
      ChoicesStep(ifSet, ifClear, k);
    }
  }

  lemma Factorise(x: real, y: real, r: real)
    ensures x * r + y * r == r * (y + x)
  {
  }

  /** The complement 1 - w of each weight: the factor of a set bit. */
  function Complements(ws: seq<real>): (r: seq<real>)
    ensures |r| == |ws|
    ensures forall i :: 0 <= i < |ws| ==> r[i] == 1.0 - ws[i]
  {
    seq(|ws|, i requires 0 <= i < |ws| => 1.0 - ws[i])
  }

  /** A corner's factor is the choice of 1 - w for each set bit and w for each
      clear one. */
  lemma {:induction false} FactorIsChoice(ws: seq<real>, s: nat, k: nat)
    requires k <= |ws|
    ensures Factor(ws, s, k) == Choice(Complements(ws), ws, s, k)
  {
    if k > 0 {
      FactorIsChoice(ws, s, k - 1);
    }
  }

  lemma {:induction false} SumEqual(f: nat -> real, g: nat -> real, lo: nat, hi: nat)
    requires forall s :: lo <= s < hi ==> f(s) == g(s)
    ensures Sum(f, lo, hi) == Sum(g, lo, hi)
    decreases hi
  {
    if hi > lo {
      SumEqual(f, g, lo, hi - 1);
    }
  }

  /** Each axis offers 1 - w and w, which add up to one. */
  lemma {:induction false} ExpandedComplements(ws: seq<real>, k: nat)
    requires k <= |ws|
    ensures Expanded(Complements(ws), ws, k) == 1.0
  {
    if k > 0 {
      ExpandedComplements(ws, k - 1);
    }
  }

  /** With exact arithmetic the weights of the 2^k corners sum to one, for any
      weights at all (extrapolation weights included). */
  lemma WeightsSumToOne(ws: seq<real>, k: nat)
    requires k <= |ws|
    ensures Sum(Weights(ws, k), 0, Pow2(k)) == 1.0
  {
    forall s | 0 <= s < Pow2(k)
      ensures Weights(ws, k)(s) == Choices(Complements(ws), ws, k)(s)
    {
      FactorIsChoice(ws, s, k);
    }
    SumEqual(Weights(ws, k), Choices(Complements(ws), ws, k), 0, Pow2(k));
    ChoicesExpand(Complements(ws), ws, k);
    ExpandedComplements(ws, k);
  }

  /** The terms of g, each multiplied by c. */
  function Scaled(g: nat -> real, c: real): nat -> real
  {
    (s: nat) => g(s) * c
  }

  lemma {:induction false} ScaledSum(g: nat -> real, c: real, n: nat)
    ensures Sum(Scaled(g, c), 0, n) == c * Sum(g, 0, n)
  {
    if n > 0 {
      ScaledSum(g, c, n - 1);
      Distribute(c, Sum(g, 0, n - 1), g(n - 1));
    }
  }

  /** The unfiltered sum is the sum of f over the masks when f agrees with
      each mask's weighted sample. */
  lemma {:induction false} ExactSumIs(mids: seq<nat>, ws: seq<real>, sizes: seq<nat>, data: seq<real>, f: nat -> real, count: nat)
    requires Shaped(mids, ws, sizes, data)
    requires forall s :: Factor(ws, s, |ws|) * CornerSample(mids, ws, sizes, data, s) == f(s)
    ensures ExactSum(mids, ws, sizes, data, count) == Sum(f, 0, count)
  {
    if count > 0 {
      ExactSumIs(mids, ws, sizes, data, f, count - 1);
      ExactSumStep(mids, ws, sizes, data, f(count - 1), count);
    }
  }

  lemma ExactSumStep(mids: seq<nat>, ws: seq<real>, sizes: seq<nat>, data: seq<real>, term: real, count: nat)
    requires Shaped(mids, ws, sizes, data) && count > 0
    requires Factor(ws, count - 1, |ws|) * CornerSample(mids, ws, sizes, data, count - 1) == term
    ensures ExactSum(mids, ws, sizes, data, count) == ExactSum(mids, ws, sizes, data, count - 1) + term
  {
  }

  /** Over a table whose samples all equal c, the unfiltered sum adds up the
      corner weights times c. */
  lemma ExactSumOfConstant(mids: seq<nat>, ws: seq<real>, sizes: seq<nat>, data: seq<real>, c: real, count: nat)
    requires Shaped(mids, ws, sizes, data)
    requires forall k :: 0 <= k < |data| ==> data[k] == c
    ensures ExactSum(mids, ws, sizes, data, count) == Sum(Scaled(Weights(ws, |ws|), c), 0, count)
  {
    var f := Scaled(Weights(ws, |ws|), c);
    forall s
      ensures Factor(ws, s, |ws|) * CornerSample(mids, ws, sizes, data, s) == f(s)
    {
      SampleOfConstant(mids, ws, sizes, data, c, s);
    }
    ExactSumIs(mids, ws, sizes, data, f, count);
  }

  lemma SampleOfConstant(mids: seq<nat>, ws: seq<real>, sizes: seq<nat>, data: seq<real>, c: real, s: nat)
    requires Shaped(mids, ws, sizes, data)
    requires forall k :: 0 <= k < |data| ==> data[k] == c
    ensures CornerSample(mids, ws, sizes, data, s) == c
  {
    CornerInRange(mids, sizes, s);
    var k := Offset(sizes, Corner(mids, s));
    assert k < |data|;
  }

  /** With exact arithmetic and no corner skipped, a table holding one value
      everywhere returns that value, extrapolation included. */
  lemma ConstantReproduced(mids: seq<nat>, ws: seq<real>, sizes: seq<nat>, data: seq<real>, c: real)
    requires Shaped(mids, ws, sizes, data)
    requires forall k :: 0 <= k < |data| ==> data[k] == c
    ensures ExactSum(mids, ws, sizes, data, Pow2(|ws|)) == c
  {
    ExactSumOfConstant(mids, ws, sizes, data, c, Pow2(|ws|));
    ScaledSum(Weights(ws, |ws|), c, Pow2(|ws|));
    WeightsSumToOne(ws, |ws|);
  }

  // ---------------------------------------------------------------------
  // Masks enumerate every corner exactly once

  /** The first n bits of s: which axes pick their lower tick. */
  function BitsOf(s: nat, n: nat): (b: seq<bool>)
    ensures |b| == n
  {
    seq(n, i requires 0 <= i < n => Bit(s, i))
  }

  /** The mask whose first bits are b. */
  function FromBits(b: seq<bool>): nat
  {
    if |b| == 0 then 0 else (if b[0] then 1 else 0) + 2 * FromBits(b[1..])
  }

  lemma {:induction false} FromBitsRoundTrip(b: seq<bool>)
    ensures FromBits(b) < Pow2(|b|)
    ensures BitsOf(FromBits(b), |b|) == b
  {
    if |b| > 0 {
      FromBitsRoundTrip(b[1..]);
      var x := FromBits(b);
      assert x / 2 == FromBits(b[1..]);
      forall i | 0 <= i < |b|
        ensures Bit(x, i) == b[i]
      {
        if i > 0 {
          assert BitsOf(FromBits(b[1..]), |b| - 1)[i - 1] == b[1..][i - 1];
        }
      }
    }
  }

  lemma {:induction false} BitsOfRoundTrip(s: nat, n: nat)
    requires s < Pow2(n)
    ensures FromBits(BitsOf(s, n)) == s
  {
    if n > 0 {
      BitsOfRoundTrip(s / 2, n - 1);
      var b := BitsOf(s, n);
      assert b[1..] == BitsOf(s / 2, n - 1);
    } else {
      assert s == 0;
    }
  }

  /** Every choice of lower/upper tick per axis is made by exactly one mask
      below 2^N. */
  lemma MaskEnumeration(b: seq<bool>)
    ensures FromBits(b) < Pow2(|b|) && BitsOf(FromBits(b), |b|) == b
    ensures forall s: nat :: s < Pow2(|b|) && BitsOf(s, |b|) == b ==> s == FromBits(b)
  {
    FromBitsRoundTrip(b);
    forall s: nat | s < Pow2(|b|) && BitsOf(s, |b|) == b
      ensures s == FromBits(b)
    {
      BitsOfRoundTrip(s, |b|);
    }
  }

  /** Distinct masks below 2^N select distinct corners. */
  lemma CornersDistinct(mids: seq<nat>, s1: nat, s2: nat)
    requires s1 < Pow2(|mids|) && s2 < Pow2(|mids|) && s1 != s2
    ensures Corner(mids, s1) != Corner(mids, s2)
  {
    var n := |mids|;
    BitsOfRoundTrip(s1, n);
    BitsOfRoundTrip(s2, n);
    assert BitsOf(s1, n) != BitsOf(s2, n);
    var i :| 0 <= i < n && BitsOf(s1, n)[i] != BitsOf(s2, n)[i];
    assert Corner(mids, s1)[i] != Corner(mids, s2)[i];
  }

  // ---------------------------------------------------------------------
  // Queries that land on grid ticks

  /** Every weight is exactly 0 or 1: the query sits on a grid point. */
  ghost predicate OnTicks(ws: seq<real>)
  {
    forall i :: 0 <= i < |ws| ==> ws[i] == 0.0 || ws[i] == 1.0
  }

  /** The one mask whose factor is 1 on a grid point: bit i set exactly when
      weight i is 0. */
  function TickMask(ws: seq<real>): nat
  {
    FromBits(seq(|ws|, i requires 0 <= i < |ws| => ws[i] == 0.0))
  }

  lemma {:induction false} FactorOnTicks(ws: seq<real>, s: nat, k: nat)
    requires OnTicks(ws) && k <= |ws|
    ensures Factor(ws, s, k) == if forall i :: 0 <= i < k ==> Bit(s, i) == (ws[i] == 0.0) then 1.0 else 0.0
  {
    if k > 0 {
      FactorOnTicks(ws, s, k - 1);
    }
  }

  lemma {:induction false} CornerSumSingle(mids: seq<nat>, ws: seq<real>, sizes: seq<nat>, data: seq<real>, s0: nat, count: nat)
    requires Shaped(mids, ws, sizes, data)
    requires forall s :: 0 <= s < count && s != s0 ==> Term(mids, ws, sizes, data, s) == 0.0
    ensures CornerSum(mids, ws, sizes, data, count) == if s0 < count then Term(mids, ws, sizes, data, s0) else 0.0
  {
    if count > 0 {
      CornerSumSingle(mids, ws, sizes, data, s0, count - 1);
    }
  }

  /** On a grid point the corner sum is exactly the sample at that point: the
      corner whose index on each axis is mid, plus one where the weight is 1. */
  lemma CornerSumOnTicks(mids: seq<nat>, ws: seq<real>, sizes: seq<nat>, data: seq<real>)
    requires Shaped(mids, ws, sizes, data) && OnTicks(ws)
    ensures forall i :: 0 <= i < |mids| ==>
      Corner(mids, TickMask(ws))[i] == if ws[i] == 1.0 then mids[i] + 1 else mids[i]
    ensures CornerSum(mids, ws, sizes, data, Pow2(|ws|)) == CornerSample(mids, ws, sizes, data, TickMask(ws))
  {
    var n := |ws|;
    var b := seq(n, i requires 0 <= i < n => ws[i] == 0.0);
    var s0 := TickMask(ws);
    FromBitsRoundTrip(b);
    assert forall i :: 0 <= i < n ==> Bit(s0, i) == b[i] by {
      forall i | 0 <= i < n ensures Bit(s0, i) == b[i] {
        assert BitsOf(s0, n)[i] == b[i];
      }
    }
    FactorOnTicks(ws, s0, n);
    forall s | 0 <= s < Pow2(n) && s != s0
      ensures Term(mids, ws, sizes, data, s) == 0.0
    {
      BitsOfRoundTrip(s, n);
      assert BitsOf(s, n) != b;
      var i :| 0 <= i < n && BitsOf(s, n)[i] != b[i];
      FactorOnTicks(ws, s, n);
    }
    CornerSumSingle(mids, ws, sizes, data, s0, Pow2(n));
  }

}
