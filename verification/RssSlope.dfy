/**
 The growth-shape check's least-squares slope (bombardment/observability/growth-shape.ts), over the reals.

 The code accumulates four sums; its denominator and numerator turn out to be sums over pairs of samples,
 which is what makes the slope an average of pairwise slopes, and the fitted line the best one there is.
 */
module RssSlope {

  datatype Sample = Sample(tMs: real, rssBytes: real)

  datatype Point = Point(x: real, y: real)

  datatype SlopeResult = SlopeResult(bytesPerSec: real, n: nat, elapsedSec: real, totalGrowthBytes: real)

  function Last(ps: seq<Point>): Point
    requires ps != []
  {
    ps[|ps| - 1]
  }

  function Front(ps: seq<Point>): seq<Point>
    requires ps != []
  {
    ps[..|ps| - 1]
  }

  function N(ps: seq<Point>): real { |ps| as real }

  /** Multiplication by name, for the proofs that need no more than the name. */
  function Times(a: real, b: real): real { a * b }

  function SumX(ps: seq<Point>): real { if ps == [] then 0.0 else SumX(Front(ps)) + Last(ps).x }

  function SumY(ps: seq<Point>): real { if ps == [] then 0.0 else SumY(Front(ps)) + Last(ps).y }

  function SumXY(ps: seq<Point>): real { if ps == [] then 0.0 else SumXY(Front(ps)) + Times(Last(ps).x, Last(ps).y) }

  function SumXX(ps: seq<Point>): real { if ps == [] then 0.0 else SumXX(Front(ps)) + Times(Last(ps).x, Last(ps).x) }

  function Combined(n: real, sx: real, sy: real, xy: real): real { n * xy - sx * sy }

  function Denom(ps: seq<Point>): real { Combined(N(ps), SumX(ps), SumX(ps), SumXX(ps)) }

  function Numer(ps: seq<Point>): real { Combined(N(ps), SumX(ps), SumY(ps), SumXY(ps)) }

  function Slope(ps: seq<Point>): real { if Denom(ps) == 0.0 then 0.0 else Numer(ps) / Denom(ps) }

  // ---------------------------------------------------------------- sums over pairs

  /** The product of two differences. */
  function Diff(px: real, qx: real, py: real, qy: real): real { (px - qx) * (py - qy) }

  /** The squared time differences to one more point. */
  function AgainstXX(ps: seq<Point>, p: Point): real {
    if ps == [] then 0.0 else AgainstXX(Front(ps), p) + Diff(p.x, Last(ps).x, p.x, Last(ps).x)
  }

  function AgainstXY(ps: seq<Point>, p: Point): real {
    if ps == [] then 0.0 else AgainstXY(Front(ps), p) + Diff(p.x, Last(ps).x, p.y, Last(ps).y)
  }

  function PairXX(ps: seq<Point>): real {
    if ps == [] then 0.0 else PairXX(Front(ps)) + AgainstXX(Front(ps), Last(ps))
  }

  function PairXY(ps: seq<Point>): real {
    if ps == [] then 0.0 else PairXY(Front(ps)) + AgainstXY(Front(ps), Last(ps))
  }

  /** What a new point adds to the pair sums, by the sums so far. */
  function Cross(n: real, sx: real, sy: real, xy: real, px: real, py: real): real {
    n * (px * py) - px * sy - py * sx + xy
  }

  /** One more point, `q`, in the differences to `p`: `n1` to `xy1` are the sums with it. */
  lemma {:induction false} NextCross(n: real, sx: real, sy: real, xy: real, px: real, py: real, qx: real, qy: real,
                                     n1: real, sx1: real, sy1: real, xy1: real, a: real, a1: real)
    requires n1 == n + 1.0 && sx1 == sx + qx && sy1 == sy + qy && xy1 == xy + qx * qy
    requires a == Cross(n, sx, sy, xy, px, py) && a1 == a + Diff(px, qx, py, qy)
    ensures a1 == Cross(n1, sx1, sy1, xy1, px, py)
  {
  }

  /** One more point, `p`, in the pair sums. */
  lemma {:induction false} NextCombined(n: real, sx: real, sy: real, xy: real, px: real, py: real,
                                        n1: real, sx1: real, sy1: real, xy1: real, c: real, c1: real)
    requires n1 == n + 1.0 && sx1 == sx + px && sy1 == sy + py && xy1 == xy + px * py
    requires c == Combined(n, sx, sy, xy) && c1 == c + Cross(n, sx, sy, xy, px, py)
    ensures c1 == Combined(n1, sx1, sy1, xy1)
  {
  }

  lemma {:induction false} SumsStep(ps: seq<Point>)
    requires ps != []
    ensures var front, q := Front(ps), Last(ps);
      && N(ps) == N(front) + 1.0 && SumX(ps) == SumX(front) + q.x && SumY(ps) == SumY(front) + q.y
      && SumXY(ps) == SumXY(front) + q.x * q.y && SumXX(ps) == SumXX(front) + q.x * q.x
  {
  }

  lemma {:induction false} NoPoints(px: real, py: real)
    ensures Cross(0.0, 0.0, 0.0, 0.0, px, py) == 0.0 && Combined(0.0, 0.0, 0.0, 0.0) == 0.0
  {
  }

  lemma {:induction false} AgainstXXBySums(ps: seq<Point>, p: Point)
    ensures AgainstXX(ps, p) == Cross(N(ps), SumX(ps), SumX(ps), SumXX(ps), p.x, p.x)
  {
    hide Cross, Diff;
    if ps == [] {
      NoPoints(p.x, p.x);
    } else {
      var front, q := Front(ps), Last(ps);
      AgainstXXBySums(front, p);
      SumsStep(ps);
      NextCross(N(front), SumX(front), SumX(front), SumXX(front), p.x, p.x, q.x, q.x,
                N(ps), SumX(ps), SumX(ps), SumXX(ps), AgainstXX(front, p), AgainstXX(ps, p));
    }
  }

  lemma {:induction false} AgainstXYBySums(ps: seq<Point>, p: Point)
    ensures AgainstXY(ps, p) == Cross(N(ps), SumX(ps), SumY(ps), SumXY(ps), p.x, p.y)
  {
    hide Cross, Diff;
    if ps == [] {
      NoPoints(p.x, p.y);
    } else {
      var front, q := Front(ps), Last(ps);
      AgainstXYBySums(front, p);
      SumsStep(ps);
      NextCross(N(front), SumX(front), SumY(front), SumXY(front), p.x, p.y, q.x, q.y,
                N(ps), SumX(ps), SumY(ps), SumXY(ps), AgainstXY(front, p), AgainstXY(ps, p));
    }
  }

  lemma {:induction false} DenomIsPairSum(ps: seq<Point>)
    ensures Denom(ps) == PairXX(ps)
  {
    hide Cross, Combined, Diff;
    if ps == [] {
      NoPoints(0.0, 0.0);
    } else {
      var front, p := Front(ps), Last(ps);
      DenomIsPairSum(front);
      AgainstXXBySums(front, p);
      SumsStep(ps);
      NextCombined(N(front), SumX(front), SumX(front), SumXX(front), p.x, p.x,
                   N(ps), SumX(ps), SumX(ps), SumXX(ps), PairXX(front), PairXX(ps));
    }
  }

  lemma {:induction false} NumerIsPairSum(ps: seq<Point>)
    ensures Numer(ps) == PairXY(ps)
  {
    hide Cross, Combined, Diff;
    if ps == [] {
      NoPoints(0.0, 0.0);
    } else {
      var front, p := Front(ps), Last(ps);
      NumerIsPairSum(front);
      AgainstXYBySums(front, p);
      SumsStep(ps);
      NextCombined(N(front), SumX(front), SumY(front), SumXY(front), p.x, p.y,
                   N(ps), SumX(ps), SumY(ps), SumXY(ps), PairXY(front), PairXY(ps));
    }
  }

  /** The running sums' denominator is the sum of the squared time differences over all pairs, and the
      numerator the sum of the products of time and size differences. */
  lemma {:induction false} SumsArePairSums(ps: seq<Point>)
    ensures Denom(ps) == PairXX(ps)
    ensures Numer(ps) == PairXY(ps)
  {
    DenomIsPairSum(ps);
    NumerIsPairSum(ps);
  }

  // ---------------------------------------------------------------- when there is a slope

  predicate SameTimes(ps: seq<Point>) { forall i, j :: 0 <= i < j < |ps| ==> ps[i].x == ps[j].x }

  lemma {:induction false} LikeDifferences(px: real, qx: real, py: real, qy: real)
    requires (px < qx && py < qy) || (px > qx && py > qy)
    ensures Diff(px, qx, py, qy) > 0.0
  {
  }

  lemma {:induction false} NoDifference(px: real, qx: real, py: real, qy: real)
    requires px == qx || py == qy
    ensures Diff(px, qx, py, qy) == 0.0
  {
  }

  lemma {:induction false} SquaredDifference(a: real, b: real)
    ensures Diff(a, b, a, b) >= 0.0
    ensures Diff(a, b, a, b) == 0.0 <==> a == b
  {
    hide Diff;
    if a == b { NoDifference(a, b, a, b); } else { LikeDifferences(a, b, a, b); }
  }

  lemma {:induction false} AgainstXXIsNonNegative(ps: seq<Point>, p: Point)
    ensures AgainstXX(ps, p) >= 0.0
    ensures AgainstXX(ps, p) == 0.0 <==> forall i :: 0 <= i < |ps| ==> ps[i].x == p.x
  {
    hide Diff;
    if ps != [] {
      AgainstXXIsNonNegative(Front(ps), p);
      SquaredDifference(p.x, Last(ps).x);
      assert forall i :: 0 <= i < |ps| - 1 ==> Front(ps)[i] == ps[i];
    }
  }

  lemma {:induction false} PairXXIsNonNegative(ps: seq<Point>)
    ensures PairXX(ps) >= 0.0
    ensures PairXX(ps) == 0.0 <==> SameTimes(ps)
  {
    if ps != [] {
      PairXXIsNonNegative(Front(ps));
      AgainstXXIsNonNegative(Front(ps), Last(ps));
      assert forall i :: 0 <= i < |ps| - 1 ==> Front(ps)[i] == ps[i];
    }
  }

  /** The denominator is never negative, and zero exactly when all samples were taken at the same time. */
  lemma {:induction false} NoSlopeIffSameTimes(ps: seq<Point>)
    ensures Denom(ps) >= 0.0
    ensures Denom(ps) == 0.0 <==> SameTimes(ps)
  {
    SumsArePairSums(ps);
    PairXXIsNonNegative(ps);
  }

  // ---------------------------------------------------------------- the slope is an average of pairwise slopes

  /** The growth rate between two samples taken at different times. */
  function PairSlope(q: Point, p: Point): real
    requires q.x != p.x
  {
    (p.y - q.y) / (p.x - q.x)
  }

  datatype Side = Below | Above

  /** `r` is on the given side of `v`. */
  predicate Bounds(side: Side, r: real, v: real) { if side.Below? then r <= v else v <= r }

  /** `r` bounds all pairwise slopes from one side. */
  predicate BoundsPairs(side: Side, r: real, ps: seq<Point>) {
    forall i, j :: 0 <= i < j < |ps| && ps[i].x != ps[j].x ==> Bounds(side, r, PairSlope(ps[i], ps[j]))
  }

  /** `r` times `d` bounds `e`. */
  predicate BoundsRate(side: Side, r: real, d: real, e: real) { Bounds(side, r * d, e) }

  lemma {:induction false} Scale(side: Side, r: real, v: real, d: real)
    requires Bounds(side, r, v) && d >= 0.0
    ensures Bounds(side, r * d, v * d)
  {
  }

  lemma {:induction false} QuotientTimes(n: real, d: real)
    requires d != 0.0
    ensures (n / d) * d == n
  {
  }

  lemma {:induction false} DiffByQuotient(px: real, qx: real, py: real, qy: real, q: real)
    requires q * (px - qx) == py - qy
    ensures q * Diff(px, qx, px, qx) == Diff(px, qx, py, qy)
  {
  }

  lemma {:induction false} NothingIsBounded(side: Side, r: real)
    ensures BoundsRate(side, r, 0.0, 0.0)
  {
  }

  lemma {:induction false} AddBounds(side: Side, r: real, d1: real, e1: real, d2: real, e2: real)
    requires BoundsRate(side, r, d1, e1) && BoundsRate(side, r, d2, e2)
    ensures BoundsRate(side, r, d1 + d2, e1 + e2)
  {
  }

  lemma {:induction false} DiffIsBounded(side: Side, r: real, q: Point, p: Point)
    requires q.x != p.x ==> Bounds(side, r, PairSlope(q, p))
    ensures BoundsRate(side, r, Diff(p.x, q.x, p.x, q.x), Diff(p.x, q.x, p.y, q.y))
  {
    SquaredDifference(p.x, q.x);
    if p.x == q.x {
      NoDifference(p.x, q.x, p.y, q.y);
      NothingIsBounded(side, r);
    } else {
      QuotientTimes(p.y - q.y, p.x - q.x);
      DiffByQuotient(p.x, q.x, p.y, q.y, PairSlope(q, p));
      hide Diff;
      Scale(side, r, PairSlope(q, p), Diff(p.x, q.x, p.x, q.x));
    }
  }

  lemma {:induction false} AgainstIsBounded(side: Side, r: real, ps: seq<Point>, p: Point)
    requires forall i :: 0 <= i < |ps| && ps[i].x != p.x ==> Bounds(side, r, PairSlope(ps[i], p))
    ensures BoundsRate(side, r, AgainstXX(ps, p), AgainstXY(ps, p))
  {
    hide Diff, Bounds, BoundsRate, PairSlope;
    if ps == [] {
      NothingIsBounded(side, r);
    } else {
      var front, q := Front(ps), Last(ps);
      assert forall i :: 0 <= i < |front| ==> front[i] == ps[i];
      AgainstIsBounded(side, r, front, p);
      DiffIsBounded(side, r, q, p);
      AddBounds(side, r, AgainstXX(front, p), AgainstXY(front, p), Diff(p.x, q.x, p.x, q.x), Diff(p.x, q.x, p.y, q.y));
    }
  }

  lemma {:induction false} PairSumsAreBounded(side: Side, r: real, ps: seq<Point>)
    requires BoundsPairs(side, r, ps)
    ensures BoundsRate(side, r, PairXX(ps), PairXY(ps))
  {
    hide Diff, Bounds, BoundsRate, PairSlope;
    if ps == [] {
      NothingIsBounded(side, r);
    } else {
      var front, p := Front(ps), Last(ps);
      assert forall i :: 0 <= i < |front| ==> front[i] == ps[i];
      PairSumsAreBounded(side, r, front);
      AgainstIsBounded(side, r, front, p);
      AddBounds(side, r, PairXX(front), PairXY(front), AgainstXX(front, p), AgainstXY(front, p));
    }
  }

  lemma {:induction false} QuotientIsBounded(side: Side, r: real, n: real, d: real)
    requires d > 0.0 && BoundsRate(side, r, d, n)
    ensures Bounds(side, r, n / d)
  {
  }

  /** The slope is an average of the pairwise slopes: what bounds them all, from either side, bounds it. */
  lemma {:induction false} SlopeIsBetweenPairSlopes(side: Side, r: real, ps: seq<Point>)
    requires BoundsPairs(side, r, ps) && !SameTimes(ps)
    ensures Bounds(side, r, Slope(ps))
  {
    hide Denom, Numer, BoundsRate, Bounds;
    NoSlopeIffSameTimes(ps);
    SumsArePairSums(ps);
    PairSumsAreBounded(side, r, ps);
    QuotientIsBounded(side, r, Numer(ps), Denom(ps));
  }

  predicate NeverShrinks(ps: seq<Point>) {
    forall i, j :: 0 <= i < j < |ps| && ps[i].x != ps[j].x ==>
      if ps[i].x < ps[j].x then ps[i].y <= ps[j].y else ps[j].y <= ps[i].y
  }

  lemma {:induction false} LikeSignsDivide(a: real, b: real)
    requires (a >= 0.0 && b > 0.0) || (a <= 0.0 && b < 0.0)
    ensures a / b >= 0.0
  {
  }

  /** Memory that never shrinks over time has no negative slope. */
  lemma {:induction false} GrowthHasNoNegativeSlope(ps: seq<Point>)
    requires NeverShrinks(ps)
    ensures Slope(ps) >= 0.0
  {
    hide Denom, Numer;
    if SameTimes(ps) {
      NoSlopeIffSameTimes(ps);
    } else {
      forall i, j | 0 <= i < j < |ps| && ps[i].x != ps[j].x ensures Bounds(Below, 0.0, PairSlope(ps[i], ps[j])) {
        LikeSignsDivide(ps[j].y - ps[i].y, ps[j].x - ps[i].x);
      }
      SlopeIsBetweenPairSlopes(Below, 0.0, ps);
    }
  }

  predicate OnLine(ps: seq<Point>, a: real, b: real) {
    forall i :: 0 <= i < |ps| ==> ps[i].y == a + b * ps[i].x
  }

  lemma {:induction false} LinePairSlope(a: real, b: real, q: Point, p: Point)
    requires q.x != p.x && q.y == a + b * q.x && p.y == a + b * p.x
    ensures PairSlope(q, p) == b
  {
  }

  /** Samples on a line give that line's slope, unless they were all taken at one time. */
  lemma {:induction false} LineGivesItsSlope(ps: seq<Point>, a: real, b: real)
    requires OnLine(ps, a, b)
    ensures Slope(ps) == if SameTimes(ps) then 0.0 else b
  {
    hide Denom, Numer, PairSlope;
    NoSlopeIffSameTimes(ps);
    if !SameTimes(ps) {
      forall i, j | 0 <= i < j < |ps| && ps[i].x != ps[j].x ensures PairSlope(ps[i], ps[j]) == b {
        LinePairSlope(a, b, ps[i], ps[j]);
      }
      SlopeIsBetweenPairSlopes(Below, b, ps);
      SlopeIsBetweenPairSlopes(Above, b, ps);
    }
  }

  // ---------------------------------------------------------------- shifting

  predicate IsShifted(ps: seq<Point>, qs: seq<Point>, dx: real, dy: real) {
    && |qs| == |ps|
    && forall i :: 0 <= i < |ps| ==> qs[i].x == ps[i].x + dx && qs[i].y == ps[i].y + dy
  }

  lemma {:induction false} DiffShifts(px: real, qx: real, py: real, qy: real, dx: real, dy: real)
    ensures Diff(px + dx, qx + dx, py + dy, qy + dy) == Diff(px, qx, py, qy)
  {
  }

  lemma {:induction false} AgainstShifts(ps: seq<Point>, qs: seq<Point>, p: Point, q: Point, dx: real, dy: real)
    requires IsShifted(ps, qs, dx, dy) && q.x == p.x + dx && q.y == p.y + dy
    ensures AgainstXX(qs, q) == AgainstXX(ps, p) && AgainstXY(qs, q) == AgainstXY(ps, p)
  {
    hide Diff;
    if ps != [] {
      AgainstShifts(Front(ps), Front(qs), p, q, dx, dy);
      DiffShifts(p.x, Last(ps).x, p.x, Last(ps).x, dx, dx);
      DiffShifts(p.x, Last(ps).x, p.y, Last(ps).y, dx, dy);
    }
  }

  lemma {:induction false} PairsShift(ps: seq<Point>, qs: seq<Point>, dx: real, dy: real)
    requires IsShifted(ps, qs, dx, dy)
    ensures PairXX(qs) == PairXX(ps) && PairXY(qs) == PairXY(ps)
  {
    if ps != [] {
      PairsShift(Front(ps), Front(qs), dx, dy);
      AgainstShifts(Front(ps), Front(qs), Last(ps), Last(qs), dx, dy);
    }
  }

  /** Neither the time origin nor a constant amount of memory matters. */
  lemma {:induction false} ShiftsDoNotMatter(ps: seq<Point>, qs: seq<Point>, dx: real, dy: real)
    requires IsShifted(ps, qs, dx, dy)
    ensures Slope(qs) == Slope(ps)
  {
    hide Denom, Numer;
    SumsArePairSums(ps);
    SumsArePairSums(qs);
    PairsShift(ps, qs, dx, dy);
  }

  // ---------------------------------------------------------------- the fitted line is the best one

  /** How far a sample is above the line `a + b * x`. */
  function Residual(p: Point, a: real, b: real): real { p.y - a - b * p.x }

  function Square(r: real): real { r * r }

  function SquaredError(ps: seq<Point>, a: real, b: real): real {
    if ps == [] then 0.0 else SquaredError(Front(ps), a, b) + Square(Residual(Last(ps), a, b))
  }

  function SumR(ps: seq<Point>, a: real, b: real): real {
    if ps == [] then 0.0 else SumR(Front(ps), a, b) + Residual(Last(ps), a, b)
  }

  function SumRX(ps: seq<Point>, a: real, b: real): real {
    if ps == [] then 0.0 else SumRX(Front(ps), a, b) + Times(Residual(Last(ps), a, b), Last(ps).x)
  }

  lemma {:induction false} ResidualSums(ps: seq<Point>, a: real, b: real)
    ensures SumR(ps, a, b) == SumY(ps) - Times(N(ps), a) - Times(b, SumX(ps))
  {
    hide Times, Residual;
    if ps == [] {
      TimesNothing(a);
      TimesNothing(b);
    } else {
      ResidualSums(Front(ps), a, b);
      SumsStep(ps);
      ResidualIs(Last(ps), a, b);
      TimesOneMore(N(Front(ps)), N(ps), a);
      TimesSum(b, SumX(Front(ps)), Last(ps).x, SumX(ps));
    }
  }

  lemma {:induction false} TimesNothing(a: real)
    ensures Times(a, 0.0) == 0.0 && Times(0.0, a) == 0.0
  {
  }

  lemma {:induction false} ResidualIs(p: Point, a: real, b: real)
    ensures Residual(p, a, b) == p.y - a - Times(b, p.x)
    ensures Times(Residual(p, a, b), p.x) == p.x * p.y - Times(a, p.x) - Times(b, p.x * p.x)
  {
  }

  lemma {:induction false} TimesOneMore(n: real, n1: real, a: real)
    requires n1 == n + 1.0
    ensures Times(n1, a) == Times(n, a) + a
  {
  }

  lemma {:induction false} TimesSum(b: real, x: real, y: real, sum: real)
    requires sum == x + y
    ensures Times(b, sum) == Times(b, x) + Times(b, y)
  {
  }

  lemma {:induction false} WeightedResidualSums(ps: seq<Point>, a: real, b: real)
    ensures SumRX(ps, a, b) == SumXY(ps) - Times(a, SumX(ps)) - Times(b, SumXX(ps))
  {
    hide Times, Residual;
    if ps == [] {
      TimesNothing(a);
      TimesNothing(b);
    } else {
      var p := Last(ps);
      WeightedResidualSums(Front(ps), a, b);
      SumsStep(ps);
      ResidualIs(p, a, b);
      TimesSum(a, SumX(Front(ps)), p.x, SumX(ps));
      TimesSum(b, SumXX(Front(ps)), p.x * p.x, SumXX(ps));
    }
  }

  lemma {:induction false} PointAboveTangent(p: Point, a: real, b: real, u: real, v: real)
    ensures Square(Residual(p, a - u, b - v)) >=
      Square(Residual(p, a, b)) + 2.0 * (Times(u, Residual(p, a, b)) + Times(v, Times(Residual(p, a, b), p.x)))
  {
  }

  lemma {:induction false} ErrorAboveTangent(ps: seq<Point>, a: real, b: real, u: real, v: real)
    ensures SquaredError(ps, a - u, b - v) >=
      SquaredError(ps, a, b) + 2.0 * (Times(u, SumR(ps, a, b)) + Times(v, SumRX(ps, a, b)))
  {
    hide Times, Residual, Square;
    if ps == [] {
      TimesNothing(u);
      TimesNothing(v);
    } else {
      var front, p := Front(ps), Last(ps);
      ErrorAboveTangent(front, a, b, u, v);
      PointAboveTangent(p, a, b, u, v);
      TimesSum(u, SumR(front, a, b), Residual(p, a, b), SumR(ps, a, b));
      TimesSum(v, SumRX(front, a, b), Times(Residual(p, a, b), p.x), SumRX(ps, a, b));
    }
  }

  /** The level at which a line of slope `b` goes through the mean of the samples. */
  function Level(ps: seq<Point>, b: real): real
    requires ps != []
  {
    (SumY(ps) - Times(b, SumX(ps))) / N(ps)
  }

  lemma {:induction false} NoLevelLeft(ps: seq<Point>, b: real)
    requires ps != []
    ensures SumR(ps, Level(ps, b), b) == 0.0
  {
    hide Residual, Times;
    ResidualSums(ps, Level(ps, b), b);
    TimesQuotient(SumY(ps) - Times(b, SumX(ps)), N(ps));
  }

  lemma {:induction false} TimesQuotient(n: real, d: real)
    requires d != 0.0
    ensures Times(d, n / d) == n
  {
  }

  /** `n` times the weighted residuals of a line through the mean. */
  lemma {:induction false} WeightedByCombined(n: real, sx: real, sy: real, xy: real, xx: real, a: real, b: real)
    requires Times(n, a) == sy - Times(b, sx)
    ensures Times(n, xy - Times(a, sx) - Times(b, xx)) == Combined(n, sx, sy, xy) - Times(b, Combined(n, sx, sx, xx))
  {
  }

  lemma {:induction false} SlopeTimesDenom(ps: seq<Point>)
    ensures Times(Slope(ps), Denom(ps)) == Numer(ps)
  {
    hide Denom, Numer;
    NoSlopeIffSameTimes(ps);
    if SameTimes(ps) {
      SumsArePairSums(ps);
      SameTimesNoPairs(ps);
    } else {
      QuotientTimes(Numer(ps), Denom(ps));
    }
  }

  lemma {:induction false} SameTimesNoPairs(ps: seq<Point>)
    requires SameTimes(ps)
    ensures PairXY(ps) == 0.0
  {
    if ps != [] {
      var front := Front(ps);
      assert forall i :: 0 <= i < |front| ==> front[i] == ps[i];
      SameTimesNoPairs(front);
      NoneAgainst(front, Last(ps));
    }
  }

  lemma {:induction false} NoneAgainst(ps: seq<Point>, p: Point)
    requires forall i :: 0 <= i < |ps| ==> ps[i].x == p.x
    ensures AgainstXY(ps, p) == 0.0
  {
    hide Diff;
    if ps != [] {
      NoneAgainst(Front(ps), p);
      NoDifference(p.x, Last(ps).x, p.y, Last(ps).y);
    }
  }

  lemma {:induction false} ZeroFactor(n: real, r: real)
    requires n > 0.0 && Times(n, r) == 0.0
    ensures r == 0.0
  {
  }

  lemma {:induction false} NoTiltLeft(ps: seq<Point>)
    requires ps != []
    ensures SumRX(ps, Level(ps, Slope(ps)), Slope(ps)) == 0.0
  {
    hide Residual, Times, Slope, Combined;
    var b, n := Slope(ps), N(ps);
    var a := Level(ps, b);
    TimesQuotient(SumY(ps) - Times(b, SumX(ps)), n);
    WeightedResidualSums(ps, a, b);
    WeightedByCombined(n, SumX(ps), SumY(ps), SumXY(ps), SumXX(ps), a, b);
    SlopeTimesDenom(ps);
    ZeroFactor(n, SumRX(ps, a, b));
  }

  /** Least squares: of all lines, the one with this slope through the mean has the smallest sum of squared
      errors, even when no denominator was left to divide by. */
  lemma {:induction false} SlopeIsLeastSquares(ps: seq<Point>, a: real, b: real)
    requires ps != []
    ensures SquaredError(ps, Level(ps, Slope(ps)), Slope(ps)) <= SquaredError(ps, a, b)
  {
    hide Residual, Times, Slope, Square, Level;
    var bestB := Slope(ps);
    var bestA := Level(ps, bestB);
    NoLevelLeft(ps, bestB);
    NoTiltLeft(ps);
    ErrorAboveTangent(ps, bestA, bestB, bestA - a, bestB - b);
    TimesNothing(bestA - a);
    TimesNothing(bestB - b);
  }

  // ---------------------------------------------------------------- the loop

  function PointOf(s: Sample, t0: real): Point { Point((s.tMs - t0) / 1000.0, s.rssBytes) }

  function Points(samples: seq<Sample>, t0: real): (ps: seq<Point>)
    ensures |ps| == |samples| && forall i :: 0 <= i < |ps| ==> ps[i] == PointOf(samples[i], t0)
  {
    if samples == [] then [] else Points(samples[..|samples| - 1], t0) + [PointOf(samples[|samples| - 1], t0)]
  }

  lemma {:induction false} PointsStep(samples: seq<Sample>, t0: real, k: nat)
    requires k < |samples|
    ensures var ps, qs := Points(samples[..k], t0), Points(samples[..k + 1], t0);
      qs != [] && Front(qs) == ps && Last(qs) == PointOf(samples[k], t0)
  {
  }

  predicate SumsAre(ps: seq<Point>, sx: real, sy: real, xy: real, xx: real) {
    sx == SumX(ps) && sy == SumY(ps) && xy == SumXY(ps) && xx == SumXX(ps)
  }

  lemma {:induction false} NoSums(samples: seq<Sample>, t0: real)
    ensures SumsAre(Points(samples[..0], t0), 0.0, 0.0, 0.0, 0.0)
  {
  }

  lemma {:induction false} NextSums(samples: seq<Sample>, t0: real, k: nat,
                                    sx: real, sy: real, xy: real, xx: real, x: real, y: real)
    requires k < |samples| && SumsAre(Points(samples[..k], t0), sx, sy, xy, xx)
    requires x == (samples[k].tMs - t0) / 1000.0 && y == samples[k].rssBytes
    ensures SumsAre(Points(samples[..k + 1], t0), sx + x, sy + y, xy + Times(x, y), xx + Times(x, x))
  {
    hide Times;
    PointsStep(samples, t0, k);
    SumsStep(Points(samples[..k + 1], t0));
  }

  lemma {:induction false} SlopeFromSums(ps: seq<Point>, sx: real, sy: real, xy: real, xx: real)
    requires SumsAre(ps, sx, sy, xy, xx)
    ensures var denom := Combined(N(ps), sx, sx, xx);
      Slope(ps) == if denom == 0.0 then 0.0 else Combined(N(ps), sx, sy, xy) / denom
  {
  }

  /** `rssSlope`: in one pass over the samples. */
  method RssSlope(samples: seq<Sample>) returns (r: SlopeResult)
    ensures r.n == |samples|
    ensures |samples| < 3 ==> r.bytesPerSec == 0.0 && r.elapsedSec == 0.0 && r.totalGrowthBytes == 0.0
    ensures |samples| >= 3 ==>
      && r.bytesPerSec == Slope(Points(samples, samples[0].tMs))
      && r.elapsedSec == (samples[|samples| - 1].tMs - samples[0].tMs) / 1000.0
      && r.totalGrowthBytes == samples[|samples| - 1].rssBytes - samples[0].rssBytes
  {
    if |samples| < 3 {
      return SlopeResult(0.0, |samples|, 0.0, 0.0);
    }
    hide SumsAre, Points, Slope, Times, Combined;
    var t0 := samples[0].tMs;
    var sumX, sumY, sumXY, sumXX := 0.0, 0.0, 0.0, 0.0;
    NoSums(samples, t0);
    for i := 0 to |samples|
      invariant SumsAre(Points(samples[..i], t0), sumX, sumY, sumXY, sumXX)
    {
      var s := samples[i];
      var x := (s.tMs - t0) / 1000.0;
      var y := s.rssBytes;
      NextSums(samples, t0, i, sumX, sumY, sumXY, sumXX, x, y);
      sumX := sumX + x;
      sumY := sumY + y;
      sumXY := sumXY + Times(x, y);
      sumXX := sumXX + Times(x, x);
    }
    assert samples[..|samples|] == samples;
    var n := |samples| as real;
    var denom := Combined(n, sumX, sumX, sumXX);
    var slope := if denom == 0.0 then 0.0 else Combined(n, sumX, sumY, sumXY) / denom;
    SlopeFromSums(Points(samples, t0), sumX, sumY, sumXY, sumXX);
    r := SlopeResult(slope, |samples|, (samples[|samples| - 1].tMs - t0) / 1000.0,
                     samples[|samples| - 1].rssBytes - samples[0].rssBytes);
  }
}
