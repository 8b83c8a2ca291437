/** The values the rules compute with: keypoints, float metrics, and the
    numeric and formatting routines of src/utils.py and numpy, which the
    model takes as given functions rather than computing them. */
module Geometry {

  /** One keypoint `(x, y)` in image coordinates (y grows downwards). */
  datatype Point = Point(x: real, y: real)

  /** A float metric: a finite number, one of the infinities, or NaN
      (what `calculate_angle` yields when a vector has zero length). */
  datatype Float = Finite(v: real) | PosInf | NegInf | NaN

  /** Python's `x >= m` for a float `x` and a number `m` read from the
      configuration: +inf is above every number, -inf below every number,
      and every comparison with NaN is false. */
  predicate AtLeast(x: Float, m: real): (b: bool)
    ensures b <==> x == PosInf || (x.Finite? && m <= x.v)
  {
    match x
    case Finite(v) => v >= m
    case PosInf => true
    case NegInf => false
    case NaN => false
  }

  /** Python's `x <= m`. */
  predicate AtMost(x: Float, m: real): (b: bool)
    ensures b <==> x == NegInf || (x.Finite? && x.v <= m)
  {
    match x
    case Finite(v) => v <= m
    case PosInf => false
    case NegInf => true
    case NaN => false
  }

  /** Python's chained `lo <= x <= hi` holds only for a finite `x` in the
      closed interval, and `x >= m` and `x <= m` together pin `x` to `m`. */
  lemma ChainedComparison(x: Float, lo: real, hi: real)
    ensures AtLeast(x, lo) && AtMost(x, hi) <==> x.Finite? && lo <= x.v <= hi
    ensures AtLeast(x, lo) && AtMost(x, lo) <==> x == Finite(lo)
  {
  }

  /** The routines a rule calls and whose results the model does not fix:
      - `angle`: `calculate_angle(p1, p2, p3)` of src/utils.py, the angle at `p2`
        in degrees (NaN when a vector has zero length);
      - `vectorAngle`: `calculate_vector_angle`, imported by src/check_pose.py
        but not defined in src/utils.py;
      - `norm`: `np.linalg.norm(np.array(a) - np.array(b))`;
      - `quotient`: float division `d1 / d2`;
      - `fixed1`, `fixed2`: the `:.1f` and `:.2f` formats. */
  datatype Numerics = Numerics(
    angle: (Point, Point, Point) -> Float,
    vectorAngle: (Point, Point, Point, Point) -> Float,
    norm: (Point, Point) -> Float,
    quotient: (Float, Float) -> Float,
    fixed1: Float -> string,
    fixed2: Float -> string)
}
