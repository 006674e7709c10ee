/** Tables whose samples are a product of one function per axis: with exact
    arithmetic the corner sum over such a table multiplies out to the product
    of the per-axis interpolations. */
module Products {
  import opened IndexOrder
  import opened Corners

  /** The value h gives tick k of axis i. */
  function At(h: (nat, nat) -> real, i: nat, k: nat): real
  {
    h(i, k)
  }

  /** Product over the first k axes of At(h, i, ks[i]): the sample at grid point
      ks of a table that is a product of one function per axis. */
  function TickProduct(h: (nat, nat) -> real, ks: seq<nat>, k: nat): real
    requires k <= |ks|
  {
    if k == 0 then 1.0 else TickProduct(h, ks, k - 1) * At(h, k - 1, ks[k - 1])
  }

  /** The same product at the corner of mask s, over its first k axes. */
  function CornerValue(h: (nat, nat) -> real, mids: seq<nat>, s: nat, k: nat): real
    requires k <= |mids|
  {
    if k == 0 then 1.0 else CornerValue(h, mids, s, k - 1) * At(h, k - 1, CornerIndex(mids[k - 1], Bit(s, k - 1)))
  }

  /** One tick of the bracket on axis i, weighted as the corner loop weights it. */
  function AxisTerm(ws: seq<real>, h: (nat, nat) -> real, mids: seq<nat>, i: nat, lowTick: bool): real
    requires i < |ws| && i < |mids|
  {
    AxisFactor(ws[i], lowTick) * At(h, i, CornerIndex(mids[i], lowTick))
  }

  /** The 1-D interpolant of h on axis i: both ticks of its bracket, weighted. */
  function Blend(ws: seq<real>, h: (nat, nat) -> real, mids: seq<nat>, i: nat): real
    requires i < |ws| && i < |mids|
  {
    AxisTerm(ws, h, mids, i, true) + AxisTerm(ws, h, mids, i, false)
  }

  /** The product of the 1-D interpolants of the first k axes. */
  function BlendProduct(ws: seq<real>, h: (nat, nat) -> real, mids: seq<nat>, k: nat): real
    requires k <= |ws| && k <= |mids|
  {
    if k == 0 then 1.0 else BlendProduct(ws, h, mids, k - 1) * Blend(ws, h, mids, k - 1)
  }

  /** The corner of mask s is a grid point, so its value is the table's
      product at that point. */
  lemma {:induction false} CornerValueAtCorner(h: (nat, nat) -> real, mids: seq<nat>, s: nat, k: nat)
    requires k <= |mids|
    ensures CornerValue(h, mids, s, k) == TickProduct(h, Corner(mids, s), k)
  {
    if k > 0 {
      CornerValueAtCorner(h, mids, s, k - 1);
    }
  }

  /** The weighted ticks of the brackets, one per axis: the lower ticks for
      lowTick, the upper ticks otherwise. */
  function WeightedTicks(ws: seq<real>, h: (nat, nat) -> real, mids: seq<nat>, lowTick: bool): (r: seq<real>)
    requires |ws| <= |mids|
    ensures |r| == |ws|
    ensures forall i :: 0 <= i < |ws| ==> r[i] == AxisTerm(ws, h, mids, i, lowTick)
  {
    seq(|ws|, i requires 0 <= i < |ws| => AxisTerm(ws, h, mids, i, lowTick))
  }

  lemma Rearrange(a: real, b: real, c: real, d: real)
    ensures (a * b) * (c * d) == (a * c) * (b * d)
  {
  }

  /** The weighted value of a corner over k axes is that over k - 1 axes
      times the weighted tick the mask chooses on axis k - 1. */
  lemma TermStep(ws: seq<real>, h: (nat, nat) -> real, mids: seq<nat>, s: nat, k: nat)
    requires 0 < k <= |ws| <= |mids|
    ensures Factor(ws, s, k) * CornerValue(h, mids, s, k)
         == (Factor(ws, s, k - 1) * CornerValue(h, mids, s, k - 1))
          * (if Bit(s, k - 1) then WeightedTicks(ws, h, mids, true)[k - 1] else WeightedTicks(ws, h, mids, false)[k - 1])
  {
    var b := Bit(s, k - 1);
    assert (if b then WeightedTicks(ws, h, mids, true)[k - 1] else WeightedTicks(ws, h, mids, false)[k - 1])
        == AxisFactor(ws[k - 1], b) * At(h, k - 1, CornerIndex(mids[k - 1], b));
    Rearrange(Factor(ws, s, k - 1), AxisFactor(ws[k - 1], b), CornerValue(h, mids, s, k - 1), At(h, k - 1, CornerIndex(mids[k - 1], b)));
  }

  /** The weighted value of a corner of a product table is the product of its
      weighted ticks, one per axis. */
  lemma {:induction false} TermIsChoice(ws: seq<real>, h: (nat, nat) -> real, mids: seq<nat>, s: nat, k: nat)
    requires k <= |ws| <= |mids|
    ensures Factor(ws, s, k) * CornerValue(h, mids, s, k)
         == Choice(WeightedTicks(ws, h, mids, true), WeightedTicks(ws, h, mids, false), s, k)
  {
    if k > 0 {
      TermIsChoice(ws, h, mids, s, k - 1);
      TermStep(ws, h, mids, s, k);
    }
  }

  /** Both weighted ticks of each axis added up are its 1-D interpolant. */
  lemma {:induction false} ExpandedIsBlend(ws: seq<real>, h: (nat, nat) -> real, mids: seq<nat>, k: nat)
    requires k <= |ws| <= |mids|
    ensures Expanded(WeightedTicks(ws, h, mids, true), WeightedTicks(ws, h, mids, false), k) == BlendProduct(ws, h, mids, k)
  {
    if k > 0 {
      ExpandedIsBlend(ws, h, mids, k - 1);
    }
  }

  /** The table's samples are a product of one function per axis. */
  ghost predicate ProductTable(h: (nat, nat) -> real, sizes: seq<nat>, data: seq<real>)
  {
    forall ks {:trigger TickProduct(h, ks, |ks|)} :: InRange(sizes, ks) && Offset(sizes, ks) < |data| ==>
      data[Offset(sizes, ks)] == TickProduct(h, ks, |ks|)
  }

  lemma SampleOfProduct(mids: seq<nat>, ws: seq<real>, sizes: seq<nat>, data: seq<real>, h: (nat, nat) -> real, s: nat)
    requires Shaped(mids, ws, sizes, data) && ProductTable(h, sizes, data)
    ensures CornerSample(mids, ws, sizes, data, s) == CornerValue(h, mids, s, |ws|)
  {
    CornerInRange(mids, sizes, s);
    CornerValueAtCorner(h, mids, s, |mids|);
  }

  /** With exact arithmetic the corner sum of a product table is the product
      of the per-axis interpolations, for any weights. */
  lemma ProductReproduced(mids: seq<nat>, ws: seq<real>, sizes: seq<nat>, data: seq<real>, h: (nat, nat) -> real)
    requires Shaped(mids, ws, sizes, data) && ProductTable(h, sizes, data)
    ensures ExactSum(mids, ws, sizes, data, Pow2(|ws|)) == BlendProduct(ws, h, mids, |ws|)
  {
    var ifSet, ifClear := WeightedTicks(ws, h, mids, true), WeightedTicks(ws, h, mids, false);
    var f := Choices(ifSet, ifClear, |ws|);
    forall s
      ensures Factor(ws, s, |ws|) * CornerSample(mids, ws, sizes, data, s) == f(s)
    {
      SampleOfProduct(mids, ws, sizes, data, h, s);
      TermIsChoice(ws, h, mids, s, |ws|);
    }
    ExactSumIs(mids, ws, sizes, data, f, Pow2(|ws|));
    ChoicesExpand(ifSet, ifClear, |ws|);
    ExpandedIsBlend(ws, h, mids, |ws|);
  }
}
