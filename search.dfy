/** Searching one axis for the bracket around a query coordinate: the index
    `mid` of the lower tick and the interpolation weight towards the upper
    tick, with the boundary policy deciding what happens outside the axis. */
module AxisSearch {
  import opened Boundary

  /** Ticks are strictly increasing (assumed by the table, never checked). */
  ghost predicate StrictlyIncreasing(axis: seq<real>)
  {
    forall i, j :: 0 <= i < j < |axis| ==> axis[i] < axis[j]
  }

  /** An axis the search can handle for every value: empty, or at least two
      increasing ticks. */
  ghost predicate Searchable(axis: seq<real>)
  {
    |axis| != 1 && StrictlyIncreasing(axis)
  }

  /** The search of this value is well defined: the axis is searchable, or it
      has a single tick and the branch taken neither computes the bracket
      index n - 2, which wraps around, nor reads the missing axis[1]. */
  ghost predicate Defined(lower: BoundaryMode, upper: BoundaryMode, axis: seq<real>, value: real)
  {
    Searchable(axis) ||
    (|axis| == 1 &&
     if value >= axis[0] then upper == Error else !(lower == Linear && axis[0] == 0.0))
  }

  /** What a search does to the bracket slot of its axis. */
  datatype Outcome =
    | Untouched                          // slot and error flag left as they were
    | OutOfRange                         // error flag raised, slot left as it was
    | Bracketed(mid: nat, weight: real)  // slot overwritten

  /** `std::abs` on a value. */
  function Abs(x: real): (r: real)
    ensures r >= 0.0 && (r == x || r == -x)
  {
    if x < 0.0 then -x else x
  }

  /** The coordinate a bracket stands for: the inverse of the search. */
  function Position(axis: seq<real>, mid: nat, weight: real): real
    requires mid + 1 < |axis|
  {
    axis[mid] + weight * (axis[mid + 1] - axis[mid])
  }

  /** The upper mode applied to a value at or above the last tick. */
  function Upper(mode: BoundaryMode, axis: seq<real>, value: real): Outcome
    requires mode == Error || (|axis| >= 2 && StrictlyIncreasing(axis))
  {
    var n := |axis|;
    match mode
    case Error => OutOfRange
    case Constant => Bracketed(n - 2, 1.0)
    case Linear =>
      if axis[n - 1] == 0.0 then Bracketed(n - 2, 1.0 + Abs(value / axis[n - 2]))
      else Bracketed(n - 2, 1.0 + Abs((value - axis[n - 1]) / axis[n - 1]))
  }

  /** The lower mode applied to a value below the first tick. */
  function Lower(mode: BoundaryMode, axis: seq<real>, value: real): Outcome
    requires |axis| >= 1
    requires (|axis| >= 2 && StrictlyIncreasing(axis)) || !(mode == Linear && axis[0] == 0.0)
  {
    match mode
    case Error => OutOfRange
    case Constant => Bracketed(0, 0.0)
    case Linear =>
      if axis[0] == 0.0 then Bracketed(0, 1.0 + Abs((value - axis[0]) / axis[1]))
      else Bracketed(0, 1.0 + Abs((value - axis[0]) / axis[0]))
  }

  /** Reference definition of the interior bracket: the first tick index k or
      later whose successor lies above the value (a linear scan). */
  function Locate(axis: seq<real>, value: real, k: nat): (m: nat)
    requires k + 2 <= |axis|
    ensures k <= m <= |axis| - 2
    decreases |axis| - k
  {
    if value < axis[k + 1] || k + 2 == |axis| then k else Locate(axis, value, k + 1)
  }

  /** The effect of `search_axis` on one axis, with the interior bracket given
      by the linear scan rather than the binary search. */
  function Search(lower: BoundaryMode, upper: BoundaryMode, axis: seq<real>, value: real): (o: Outcome)
    requires Defined(lower, upper, axis, value)
    ensures o.Bracketed? ==> o.mid < |axis| && (|axis| >= 2 ==> o.mid + 2 <= |axis|)
  {
    var n := |axis|;
    if n == 0 then Untouched
    else if value >= axis[n - 1] then Upper(upper, axis, value)
    else if value < axis[0] then Lower(lower, axis, value)
    else if value > axis[0] then
      var m := Locate(axis, value, 0);
      Bracketed(m, (value - axis[m]) / (axis[m + 1] - axis[m]))
    else Untouched
  }

  /** Bracket index left in a zero-initialised slot after the search. */
  function SlotMid(o: Outcome): nat
  {
    if o.Bracketed? then o.mid else 0
  }

  /** Weight left in a zero-initialised slot after the search. */
  function SlotWeight(o: Outcome): real
  {
    if o.Bracketed? then o.weight else 0.0
  }

  // ---------------------------------------------------------------------
  // Properties of the search

  /** The scan finds a bracket around every value inside [axis[k], axis[n-1]). */
  lemma {:induction false} LocateBrackets(axis: seq<real>, value: real, k: nat)
    requires StrictlyIncreasing(axis) && k + 2 <= |axis|
    requires axis[k] <= value < axis[|axis| - 1]
    ensures k <= Locate(axis, value, k) <= |axis| - 2
    ensures axis[Locate(axis, value, k)] <= value < axis[Locate(axis, value, k) + 1]
    decreases |axis| - k
  {
    if !(value < axis[k + 1] || k + 2 == |axis|) {
      LocateBrackets(axis, value, k + 1);
    }
  }

  /** On a strictly increasing axis a bracket is unique: any m with
      axis[m] <= value < axis[m+1] is the one the scan finds. */
  lemma {:induction false} BracketUnique(axis: seq<real>, value: real, m: nat, k: nat)
    requires StrictlyIncreasing(axis) && m + 2 <= |axis| && k <= m
    requires axis[m] <= value < axis[m + 1]
    ensures Locate(axis, value, k) == m
    decreases m - k
  {
    if k < m {
      assert axis[k + 1] <= axis[m];
      BracketUnique(axis, value, m, k + 1);
    }
  }

  /** Strictly inside the axis the bracket satisfies
      axis[mid] <= value < axis[mid+1], mid <= n - 2, its weight is the
      fraction of the way from axis[mid] to axis[mid+1], lies in [0, 1), and
      maps back to the value. */
  lemma InteriorBracket(lower: BoundaryMode, upper: BoundaryMode, axis: seq<real>, value: real)
    requires Searchable(axis) && |axis| >= 2
    requires axis[0] < value < axis[|axis| - 1]
    ensures Search(lower, upper, axis, value).Bracketed?
    ensures var o := Search(lower, upper, axis, value);
      o.mid <= |axis| - 2 && axis[o.mid] <= value < axis[o.mid + 1] &&
      o.weight == (value - axis[o.mid]) / (axis[o.mid + 1] - axis[o.mid]) &&
      0.0 <= o.weight < 1.0 &&
      Position(axis, o.mid, o.weight) == value
  {
    var o := Search(lower, upper, axis, value);
    LocateBrackets(axis, value, 0);
    var m := o.mid;
    var d := axis[m + 1] - axis[m];
    assert d > 0.0;
    FractionBounds(value - axis[m], d);
    assert o.weight * d == value - axis[m];
  }

  /** A fraction 0 <= num < d of a positive length lies in [0, 1). */
  lemma FractionBounds(num: real, d: real)
    requires 0.0 <= num < d
    ensures 0.0 <= num / d < 1.0
  {
  }

  /** At or above the last tick the upper mode decides: Error fails, Constant
      clamps to the last tick (weight 1), Linear takes bracket n - 2 with the
      magnitude weight, which is at least 1 and points at or past the edge. */
  lemma UpperBoundary(lower: BoundaryMode, upper: BoundaryMode, axis: seq<real>, value: real)
    requires Searchable(axis) && |axis| >= 2
    requires value >= axis[|axis| - 1]
    ensures var o := Search(lower, upper, axis, value);
      var n := |axis|;
      (o == OutOfRange <==> upper == Error) &&
      (upper == Constant ==> o == Bracketed(n - 2, 1.0) && Position(axis, n - 2, 1.0) == axis[n - 1]) &&
      (upper == Linear ==>
        o.Bracketed? && o.mid == n - 2 &&
        o.weight == (if axis[n - 1] == 0.0 then 1.0 + Abs(value / axis[n - 2])
                     else 1.0 + Abs((value - axis[n - 1]) / axis[n - 1])) &&
        o.weight >= 1.0 && Position(axis, o.mid, o.weight) >= axis[n - 1])
  {
    var n := |axis|;
    var o := Search(lower, upper, axis, value);
    assert o == Upper(upper, axis, value);
    if upper == Linear {
      assert axis[n - 2] < axis[n - 1];
      assert o.mid == n - 2 && o.weight >= 1.0;
      PastLastTick(axis, o.weight);
    }
  }

  /** Below the first tick the lower mode decides: Error fails, Constant
      clamps to the first tick (weight 0), Linear takes bracket 0 with the
      magnitude weight, which is at least 1 and so points at or past the
      second tick, not below the first. */
  lemma LowerBoundary(lower: BoundaryMode, upper: BoundaryMode, axis: seq<real>, value: real)
    requires Searchable(axis) && |axis| >= 2
    requires value < axis[0]
    ensures var o := Search(lower, upper, axis, value);
      (o == OutOfRange <==> lower == Error) &&
      (lower == Constant ==> o == Bracketed(0, 0.0) && Position(axis, 0, 0.0) == axis[0]) &&
      (lower == Linear ==>
        o.Bracketed? && o.mid == 0 &&
        o.weight == (if axis[0] == 0.0 then 1.0 + Abs((value - axis[0]) / axis[1])
                     else 1.0 + Abs((value - axis[0]) / axis[0])) &&
        o.weight >= 1.0 && Position(axis, o.mid, o.weight) >= axis[1])
  {
    var o := Search(lower, upper, axis, value);
    assert o == Lower(lower, axis, value);
    if lower == Linear {
      assert axis[0] < axis[1];
      assert o.mid == 0 && o.weight >= 1.0;
      PastSecondTick(axis, o.weight);
    }
  }

  /** On bracket 0 a weight of at least one points at or past the second
      tick. */
  lemma PastSecondTick(axis: seq<real>, w: real)
    requires |axis| >= 2 && axis[0] < axis[1] && w >= 1.0
    ensures Position(axis, 0, w) >= axis[1]
  {
    StepAtLeastOne(w, axis[1] - axis[0]);
  }

  /** On the last bracket a weight of at least one points at or past the
      last tick. */
  lemma PastLastTick(axis: seq<real>, w: real)
    requires |axis| >= 2 && axis[|axis| - 2] < axis[|axis| - 1] && w >= 1.0
    ensures Position(axis, |axis| - 2, w) >= axis[|axis| - 1]
  {
    StepAtLeastOne(w, axis[|axis| - 1] - axis[|axis| - 2]);
  }

  /** A weight of at least one carries at least one full step. */
  lemma StepAtLeastOne(w: real, d: real)
    requires w >= 1.0 && d > 0.0
    ensures w * d >= d
  {
    assert w * d == d + (w - 1.0) * d;
  }

  /** The slot is left untouched exactly for an empty axis or a value equal to
      the first tick; there the zero defaults stand for the first tick itself. */
  lemma DefaultsSurvive(lower: BoundaryMode, upper: BoundaryMode, axis: seq<real>, value: real)
    requires Searchable(axis)
    ensures Search(lower, upper, axis, value) == Untouched <==> |axis| == 0 || value == axis[0]
    ensures |axis| >= 2 && value == axis[0] ==> Position(axis, 0, 0.0) == value
  {
    if |axis| >= 2 && axis[0] < value < axis[|axis| - 1] {
      InteriorBracket(lower, upper, axis, value);
    }
  }

  /** The search fails exactly when the value lies on a side whose mode is Error
      (the last tick itself counts as the upper side). */
  lemma SearchFailsIff(lower: BoundaryMode, upper: BoundaryMode, axis: seq<real>, value: real)
    requires Defined(lower, upper, axis, value)
    ensures Search(lower, upper, axis, value) == OutOfRange <==>
      |axis| >= 1 &&
      ((value >= axis[|axis| - 1] && upper == Error) || (value < axis[0] && lower == Error))
  {
    if |axis| >= 2 && axis[0] < value < axis[|axis| - 1] {
      InteriorBracket(lower, upper, axis, value);
    }
  }

  /** On a single tick a search that does not fail went below the tick, under
      the Constant mode or the Linear mode with a nonzero tick, and left
      bracket 0 with weight 0 or the Linear magnitude weight. */
  lemma OneTickSearch(lower: BoundaryMode, upper: BoundaryMode, axis: seq<real>, value: real)
    requires |axis| == 1 && Defined(lower, upper, axis, value)
    ensures var o := Search(lower, upper, axis, value);
      o != OutOfRange ==>
        value < axis[0] && o.Bracketed? && o.mid == 0 &&
        (lower == Constant ==> o.weight == 0.0) &&
        (lower == Linear ==> axis[0] != 0.0 && o.weight == 1.0 + Abs((value - axis[0]) / axis[0]))
  {
  }

  /** The bracket left in a zero-initialised slot always has room for its upper
      tick, so both corners it names are ticks of the axis. */
  lemma SlotFits(lower: BoundaryMode, upper: BoundaryMode, axis: seq<real>, value: real)
    requires Searchable(axis) && |axis| >= 2
    ensures SlotMid(Search(lower, upper, axis, value)) + 1 < |axis|
  {
    if axis[0] < value < axis[|axis| - 1] {
      InteriorBracket(lower, upper, axis, value);
    }
  }

  /** A value equal to tick k gives weight 0 on bracket k, or weight 1 on
      bracket k - 1 at the last tick: the slot names tick k exactly. */
  lemma SearchAtTick(lower: BoundaryMode, upper: BoundaryMode, axis: seq<real>, k: nat)
    requires Searchable(axis) && k < |axis|
    requires Search(lower, upper, axis, axis[k]) != OutOfRange
    ensures var o := Search(lower, upper, axis, axis[k]);
      (SlotWeight(o) == 0.0 && SlotMid(o) == k) || (SlotWeight(o) == 1.0 && SlotMid(o) + 1 == k)
  {
    var n := |axis|;
    var value := axis[k];
    if 0 < k < n - 1 {
      assert axis[0] < value < axis[n - 1];
      BracketUnique(axis, value, k, 0);
    } else if k == n - 1 && k > 0 {
      assert value >= axis[n - 1];
    }
  }

  // ---------------------------------------------------------------------
  // The search as it runs on a table's per-query bracket buffer

  /** Per-query bracket buffer: one (mid, weight) slot per axis and an error
      flag, all zero-initialised. */
  class Bounds {
    const mid: array<nat>
    const weight: array<real>
    var error: bool

    constructor (n: nat)
      ensures mid.Length == n && weight.Length == n && fresh(mid) && fresh(weight)
      ensures !error
      ensures forall k :: 0 <= k < n ==> mid[k] == 0 && weight[k] == 0.0
    {
      mid := new nat[n](_ => 0);
      weight := new real[n](_ => 0.0);
      error := false;
    }
  }

  /** `search_axis`: writes the bracket of `value` on `axis` into slot i of
      `bounds`, or raises its error flag. Only slot i and the flag change, and
      the flag is never cleared. */
  method SearchAxis(bounds: Bounds, i: nat, policy: BoundaryPolicy, axis: seq<real>, value: real)
    requires Defined(policy.lower, policy.upper, axis, value)
    requires i < bounds.mid.Length && i < bounds.weight.Length
    modifies bounds, bounds.mid, bounds.weight
    ensures var o := Search(policy.lower, policy.upper, axis, value);
      bounds.error == (old(bounds.error) || o == OutOfRange) &&
      bounds.mid[i] == (if o.Bracketed? then o.mid else old(bounds.mid[i])) &&
      bounds.weight[i] == (if o.Bracketed? then o.weight else old(bounds.weight[i]))
    ensures forall k :: 0 <= k < bounds.mid.Length && k != i ==> bounds.mid[k] == old(bounds.mid[k])
    ensures forall k :: 0 <= k < bounds.weight.Length && k != i ==> bounds.weight[k] == old(bounds.weight[k])
  {
    if |axis| == 0 {
      return;
    }
    var n := |axis|;
    ghost var o := Search(policy.lower, policy.upper, axis, value);
    if value >= axis[n - 1] {
      assert o == Upper(policy.upper, axis, value);
      match policy.upper
      case Error =>
        bounds.error := true;
      case Constant =>
        bounds.mid[i] := n - 2;
        bounds.weight[i] := 1.0;
      case Linear =>
        bounds.mid[i] := n - 2;
        if axis[n - 1] == 0.0 {
          bounds.weight[i] := 1.0 + Abs(value / axis[n - 2]);
        } else {
          bounds.weight[i] := 1.0 + Abs((value - axis[n - 1]) / axis[n - 1]);
        }
    } else if value < axis[0] {
      assert o == Lower(policy.lower, axis, value);
      match policy.lower
      case Error =>
        bounds.error := true;
      case Constant =>
        bounds.mid[i] := 0;
        bounds.weight[i] := 0.0;
      case Linear =>
        bounds.mid[i] := 0;
        if axis[0] == 0.0 {
          bounds.weight[i] := 1.0 + Abs((value - axis[0]) / axis[1]);
        } else {
          bounds.weight[i] := 1.0 + Abs((value - axis[0]) / axis[0]);
        }
    } else if value > axis[0] {
      // binary search over [0, n - 2]; the loop only ends at the break
      var l, h := 0, n - 2;
      while l <= h
        invariant 0 <= l <= h <= n - 2
        invariant axis[l] <= value < axis[h + 1]
        invariant bounds.error == old(bounds.error)
        invariant forall k :: 0 <= k < bounds.mid.Length && k != i ==> bounds.mid[k] == old(bounds.mid[k])
        invariant bounds.weight[..] == old(bounds.weight[..])
        decreases h - l
      {
        var mid := l + (h - l) / 2;
        bounds.mid[i] := mid;
        if value < axis[mid] {
          h := mid - 1;
        } else if value >= axis[mid + 1] {
          l := mid + 1;
        } else {
          bounds.weight[i] := (value - axis[mid]) / (axis[mid + 1] - axis[mid]);
          BracketUnique(axis, value, mid, 0);
          assert o == Bracketed(mid, bounds.weight[i]);
          break;
        }
      }
    }
  }
}
