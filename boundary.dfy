/** Boundary policy of a lookup table: what a query does when a coordinate
    falls below the first tick or at/above the last tick of an axis. */
module Boundary {

  /** The three extrapolation modes; the same pair applies to every axis. */
  datatype BoundaryMode = Error | Constant | Linear

  /** One mode for the lower side of every axis and one for the upper side. */
  class BoundaryPolicy {
    var lower: BoundaryMode
    var upper: BoundaryMode

    /** Both sides start out in Error mode. */
    constructor ()
      ensures lower == Error && upper == Error
    {
      lower := Error;
      upper := Error;
    }

    /** Sets both sides to the same mode. */
    method SetAll(mode: BoundaryMode)
      modifies this
      ensures lower == mode && upper == mode
    {
      lower := mode;
      upper := mode;
    }
  }
}
