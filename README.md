# Multilinear lookup table (Interpolation, `linear::LUT`)

This project models the core of the header-only Interpolation library: the
N-dimensional lookup table `linear::LUT` of `include/interpolation/Linear.h`,
with its parts.

- **Boundary policy.** A lower and an upper `BoundaryMode` (Error, Constant or
  Linear), set one at a time or both at once with `set_all`.
- **`search_axis`.** Finds the bracket of one coordinate on one axis. It writes
  the lower tick index `mid[i]` and the weight `weight[i]` into a per-query
  `Bounds` record, or raises its `error` flag.
  - Outside the axis, the boundary mode of that side decides.
  - Strictly inside the axis, a binary search over `[0, n-2]` runs.
- **`natord` / `rnatord`.** Flatten an index tuple into one offset of the
  sample array. `natord` is row-major, with the last axis fastest. `rnatord`
  is the reverse, with the first axis fastest.
- **`LUT`.**
  - `add_axis` appends an axis and caches its size.
  - `axis` returns an axis.
  - The scalar `operator()` interpolates on the first axis.
  - The vector `operator()` checks the input length and searches every axis.
    It then sums, over the 2^N corners picked by the bits of a mask, each
    corner's weight times its sample. Only weights above machine epsilon are
    added.

## How it is modelled

- **Values.** `value_t` is `real` and arithmetic is exact. Machine epsilon is
  the constant 2^-52 (`Corners.Epsilon`). Sizes and indices are `nat`.
- **Classes and state.**
  - `BoundaryPolicy`, `Bounds` and `LUT` are classes. Their fields are updated
    by methods with `modifies` clauses.
  - `Bounds` keeps fixed-size `array`s, like the `std::array` members.
  - The table's vectors are `seq` fields that `AddAxis` reassigns.
  - The owner assigns the sample array `data` directly, as the driver does.
- **Loops.** `search_axis`, `natord`, `rnatord` and both `operator()`s are
  methods with the source's loops. Each is proved against a pure
  specification:
  - `AxisSearch.Search`, where the interior bracket is given by a linear scan
    (`Locate`);
  - `IndexOrder.Offset` and `ROffset`;
  - `Corners.CornerSum`;
  - `Lookup.Query` and `Lookup.ScalarQuery`.

  The properties are then proved about those functions.
- **Errors.** Where the source throws, the model returns `Err(...)` of a
  `Result`.
- **Corner loop.** The vector `operator()`'s corner loop (Linear.h:213-240) is
  the method `Lookup.Interpolate`, called from `Value`. It has the same two
  nested loops, the same buffer and the same epsilon test.
- **Exact sums over the corners.** `Corners` proves that the 2^N masks choose
  every combination of one value per axis exactly once (`ChoicesExpand`).
  From this follow the weights summing to one, and, in `Products`, that a
  table whose samples are a product of one function per axis is interpolated
  as the product of the per-axis interpolations.

## Model

| member | source | states |
|---|---|---|
| Boundary.BoundaryPolicy.constructor | include/interpolation/Linear.h:29-32 | a new policy is Error on both sides |
| Boundary.BoundaryPolicy.SetAll | include/interpolation/Linear.h:34-38 | both the lower and the upper mode become the given mode |
| AxisSearch.Bounds.constructor | include/interpolation/Linear.h:41-47 | every bracket slot starts at mid 0, weight 0, and the error flag is clear |
| AxisSearch.SearchAxis | include/interpolation/Linear.h:49-130 | the flag becomes old flag or the coordinate was rejected, so it is never cleared; slot i holds the bracket `Search` gives when there is one and is otherwise unchanged; every other slot is unchanged; the binary search ends, through its break, on the bracket |
| AxisSearch.Search | include/interpolation/Linear.h:49-130 | every bracket the search produces names a tick (mid < n), and on an axis of two or more ticks leaves room for its upper tick (mid + 2 <= n) |
| AxisSearch.OneTickSearch | include/interpolation/Linear.h:57-108 | on a one-tick axis a search that does not fail went below the tick and left bracket 0, with weight 0 under Constant and 1 + abs((value - axis[0]) / axis[0]) under Linear with a nonzero tick |
| AxisSearch.Abs | include/interpolation/Linear.h:72 | the magnitude is non-negative and is the value or its negation |
| AxisSearch.Locate | include/interpolation/Linear.h:112-128 | the interior bracket index lies in [k, n-2] |
| AxisSearch.LocateBrackets | include/interpolation/Linear.h:109-128 | for a value in [axis[k], axis[n-1]) the bracket satisfies axis[mid] <= value < axis[mid+1] |
| AxisSearch.BracketUnique | include/interpolation/Linear.h:115-128 | on a strictly increasing axis any index with axis[m] <= value < axis[m+1] is the bracket found, so the binary search and the scan agree |
| AxisSearch.InteriorBracket | include/interpolation/Linear.h:109-128 | strictly inside the axis the search brackets the value with mid <= n-2; the weight is (value-axis[mid])/(axis[mid+1]-axis[mid]), lies in [0,1) and maps back to the value |
| AxisSearch.UpperBoundary | include/interpolation/Linear.h:57-82 | at or above the last tick: the search fails iff upper is Error; Constant gives (n-2, 1); Linear gives n-2 and the magnitude weight from the code, which is >= 1 and points at or past the last tick |
| AxisSearch.LowerBoundary | include/interpolation/Linear.h:83-108 | below the first tick: the search fails iff lower is Error; Constant gives (0, 0); Linear gives 0 and the magnitude weight from the code, which is >= 1 and points at or past the second tick |
| AxisSearch.DefaultsSurvive | include/interpolation/Linear.h:52-109 | on an axis that is empty or has at least two ticks, the slot is untouched exactly for an empty axis or a value equal to the first tick, and there the zero defaults stand for that tick (on a single tick that value takes the upper arm instead) |
| AxisSearch.SearchFailsIff | include/interpolation/Linear.h:57-108 | the search fails exactly when the value is on a side whose mode is Error; the last tick counts as upper |
| AxisSearch.SlotFits | include/interpolation/Linear.h:57-128 | after any search the slot's bracket has room for its upper tick |
| AxisSearch.SearchAtTick | include/interpolation/Linear.h:57-128 | a value equal to tick k leaves weight 0 on bracket k, or weight 1 on bracket k-1 |
| IndexOrder.NatOrd | include/interpolation/Linear.h:135-145 | `natord` returns the sum of indices[i] times the product of the sizes after i |
| IndexOrder.OffsetBound | include/interpolation/Linear.h:135-145 | in-range indices give an offset below the product of the sizes |
| IndexOrder.OffsetInjective | include/interpolation/Linear.h:135-145 | distinct in-range index tuples give distinct offsets |
| IndexOrder.RNatOrd | include/interpolation/Linear.h:151-161 | `rnatord` returns the sum of indices[i] times the product of the sizes before i |
| IndexOrder.ROffsetBound | include/interpolation/Linear.h:151-161 | in-range indices give an `rnatord` offset below the product of the sizes |
| IndexOrder.ROffsetIsReversedOffset | include/interpolation/Linear.h:132-162 | `rnatord` equals `natord` applied to the reversed sizes and indices |
| Corners.CornerInRange | include/interpolation/Linear.h:222-235 | when brackets fit, every corner the mask selects is a grid point whose offset addresses a sample |
| Corners.ChoicesExpand | include/interpolation/Linear.h:217-232 | summed over the 2^k masks, the product of the value each mask chooses per axis (one for a set bit, another for a clear bit) is the product over the axes of the two values added |
| Corners.WeightsSumToOne | include/interpolation/Linear.h:217-232 | with exact arithmetic the 2^N corner factors sum to 1 for any weights |
| Corners.MaskEnumeration | include/interpolation/Linear.h:217-222 | every choice of lower or upper tick per axis is made by exactly one mask below 2^N |
| Corners.CornersDistinct | include/interpolation/Linear.h:217-231 | distinct masks below 2^N select distinct corners |
| Corners.SkipIsExact | include/interpolation/Linear.h:233-237 | the epsilon filter changes nothing when every corner factor is 0 or above epsilon |
| Corners.ExactSumOfConstant | include/interpolation/Linear.h:213-240 | over a constant table the unfiltered corner sum is the sum over the masks of each corner factor times the constant |
| Corners.ConstantReproduced | include/interpolation/Linear.h:213-240 | with no corner skipped a constant table returns the constant, extrapolation included |
| Corners.CornerSumOnTicks | include/interpolation/Linear.h:213-240 | when every weight is 0 or 1 the corner sum is exactly the sample of the one corner with factor 1 |
| Lookup.OutcomesFit | include/interpolation/Linear.h:204-208 | after all searches the bracket buffer fits the table shape |
| Lookup.QueryFails | include/interpolation/Linear.h:199-211 | the vector query fails with a dimension mismatch iff the input length is not N; otherwise it fails out of bounds iff some coordinate is on a side whose mode is Error |
| Lookup.QueryOnGrid | include/interpolation/Linear.h:199-241 | a query on a grid point returns that point's sample when the upper mode is not Error, or under any modes (the default Error/Error included) when no coordinate is the last tick of its axis |
| Lookup.ConstantTable | include/interpolation/Linear.h:213-240 | a constant table returns its constant from a successful query when every corner factor is 0 or above epsilon (so none is skipped, and none is a negative factor from Linear extrapolation) |
| Products.TermIsChoice | include/interpolation/Linear.h:217-236 | on a table whose samples are a product of one function per axis, a corner's factor times its sample is the product, over the axes, of the tick it picks weighted by that axis's factor |
| Products.ProductReproduced | include/interpolation/Linear.h:213-240 | with exact arithmetic the unfiltered corner sum over such a product table is the product of the per-axis 1-D interpolations, for any weights, extrapolation included |
| Lookup.BlendOnLine | include/interpolation/Linear.h:109-128 | inside axis i, the two bracketing ticks of a line, weighted 1 - w and w, add up to the line at the coordinate |
| Lookup.LineProductTable | include/interpolation/Linear.h:199-241 | on a table whose samples are a product of one line per axis, a query inside every axis returns the product of the lines at the input, between grid points too, when every corner factor is 0 or above epsilon |
| Lookup.ScalarFails | include/interpolation/Linear.h:186-190 | the scalar query fails exactly when its coordinate is on a side whose mode is Error |
| Lookup.ScalarOneTick | include/interpolation/Linear.h:184-197 | on a one-tick axis the scalar query fails at or above the tick or under a lower Error mode, and otherwise returns the first sample, since there is no next tick |
| Lookup.ScalarClamps | include/interpolation/Linear.h:184-197 | under the Constant policy the scalar query returns the first sample below the axis and the last sample at or above it |
| Lookup.ScalarOnLine | include/interpolation/Linear.h:192-196 | on samples of a line, a successful scalar query returns the line at the position of its bracket, extrapolation included |
| Lookup.ScalarExactInside | include/interpolation/Linear.h:184-197 | inside the axis the scalar query reproduces a line exactly |
| Lookup.VectorMatchesScalar | include/interpolation/Linear.h:184-241 | on one axis the vector and scalar queries agree when both corner factors, 1 - w and w, are 0 or above epsilon (so neither is skipped, and neither is a negative factor from Linear extrapolation) |
| Lookup.LUT.constructor | include/interpolation/Linear.h:164-171 | a new table has no axes, sizes or samples and an Error/Error policy |
| Lookup.LUT.AddAxis | include/interpolation/Linear.h:173-177 | appends the axis and its length; the cached sizes remain the axis lengths |
| Lookup.LUT.Axis | include/interpolation/Linear.h:179-182 | the returned axis has the cached length |
| Lookup.LUT.ValueAt | include/interpolation/Linear.h:184-197 | the scalar `operator()` returns `ScalarQuery`: an error on a rejected coordinate, else the interpolated or single sample |
| Lookup.LUT.Value | include/interpolation/Linear.h:199-241 | the vector `operator()` returns `Query`: the dimension check, then the out-of-bounds check, then the filtered corner sum |
| Lookup.Interpolate | include/interpolation/Linear.h:213-240 | the nested corner loops compute the sum over all masks of factor times sample, counting only factors above epsilon |
| Demo.OneDimensional | src/Main.cpp:20-29 | the driver's 1-D table (y = 2x, Linear) gives 5 at 2.5, 12.8 at 12 and 12 at -5 |
| Demo.OneDimensionalVector | src/Main.cpp:20-28 | the same table through the vector query gives 24 at 12, because the negative lower-corner weight is skipped |
| Demo.TwoDimensional | src/Main.cpp:31-51 | the driver's 2-D table of x * y gives 0 at (1, 0) and 50 at (5, 10) |
| Demo.OffGrid | src/Main.cpp:31-49 | the same table at (2, 5.5), between grid points, gives 2 * 5.5 = 11 |

## Left out

- `include/interpolation/Json.h`: `to_json` and `from_json` only call into the nlohmann JSON library, which is not part of this model.
- `src/Main.cpp`: the demo driver prints to standard output. Only its tables and query points are used, in `Demo`.
- The driver's 2-D sample vector is built with two nested `emplace_back` loops. `Demo.Grid` writes the same row-major contents as a comprehension.
- The driver's other 2-D queries, at (2, 12), (5.1, 10), (-2, 2) and (-2, -3), are not evaluated.
- IEEE-754 rounding: all arithmetic is exact. Statements about exact reproduction and weights summing to one hold only for exact arithmetic.
- AxisSearch.SearchAxis: on an axis with a single tick, requires that the search takes neither the upper branch under Constant or Linear, where the bracket index `n - 2` wraps around, nor the lower Linear branch with a zero tick, which reads the missing `axis[1]`. The other single-tick searches are modelled: the failing ones, and those below the tick under Constant or under Linear with a nonzero tick (`OneTickSearch`).
- `size_t` wrap-around:
  - Products and offsets are unbounded `nat`s.
  - `natord`/`rnatord` with zero dimensions are excluded, because `Dimensions - 1` wraps.
- The exception messages, including the `typeid` name in the out-of-bounds message, are not modelled. A thrown exception becomes an `Err` value that names only the kind of failure.
- The `default: break;` arms of the two switches are not modelled: the enum has only three values.
- Lookup.LUT.Value: requires every axis to have at least two strictly increasing ticks, N >= 1, and exactly one sample per grid point. The source checks none of these. One-tick axes are excluded here altogether, not only on the branches `SearchAxis` leaves out.
  - Three of the conditions keep the source's reads in range: at least two ticks per axis, N >= 1, and at least as many samples as grid points.
  - Ticks out of order still keep every read in range; at worst a Linear divisor becomes 0.
  - Samples beyond the last grid point are never read.
  - Ordering is assumed so that brackets are unique and the Linear divisors are nonzero. The exact sample count is the table's intended invariant, one sample per grid point in `natord` order (Linear.h:171 leaves `data` for the caller to fill); it is not needed for in-range reads.
- Lookup.LUT.ValueAt: requires a first axis that is empty, strictly increasing with at least two ticks, or a single tick searched on a branch `SearchAxis` allows; and at least one sample per tick. The source does not check these either.
- Ordering of ticks is a precondition throughout. The binary search's bracket invariant does not depend on it, but uniqueness of the bracket and the nonzero divisors of the Linear formulas do.
- Lookup.LUT.Axis: returns the axis as a value, not as a reference into the table.
- Concurrent use of one table is not modelled. The code has no concurrency of its own.
- Multilinear exactness for N > 1 is proved at grid points (`QueryOnGrid`), for constant tables (`ConstantTable`) and, between grid points, for tables that are a product of one line per axis (`LineProductTable`), such as the driver's x * y table. Sums of such tables, and general multilinear data, are not covered.
