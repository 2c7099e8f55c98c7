// Joint vectors over the reals, the max-norm distance the planner, the shaper and the ramp all
// use, and straight-line interpolation between two poses.
module JointSpace {
  type Vec = seq<real>

  function Abs(x: real): real {
    if x < 0.0 then -x else x
  }

  function Min(x: real, y: real): real {
    if x <= y then x else y
  }

  function Max(x: real, y: real): real {
    if x <= y then y else x
  }

  /** np.clip(x, lo, hi). */
  function Clip(x: real, lo: real, hi: real): real {
    Min(Max(x, lo), hi)
  }

  /** np.max(np.abs(b - a)). */
  function Dist(a: Vec, b: Vec): (d: real)
    requires |a| == |b|
    ensures d >= 0.0
  {
    if |a| == 0 then 0.0 else Max(Abs(b[0] - a[0]), Dist(a[1..], b[1..]))
  }

  function Blend(x: real, y: real, s: real): real {
    x + s * (y - x)
  }

  /** The pose a + s * (b - a). */
  function Lerp(a: Vec, b: Vec, s: real): (q: Vec)
    requires |a| == |b|
    ensures |q| == |a|
    ensures forall i | 0 <= i < |a| :: q[i] == Blend(a[i], b[i], s)
  {
    seq(|a|, i requires 0 <= i < |a| => Blend(a[i], b[i], s))
  }

  /** Every coordinate of q lies between the two corners. */
  ghost predicate InBox(q: Vec, lo: Vec, hi: Vec) {
    |q| == |lo| == |hi| && forall i | 0 <= i < |q| :: lo[i] <= q[i] <= hi[i]
  }

  // ------------------------------------------------------------------------ distance

  /** Dist is an upper bound of every coordinate's difference. */
  lemma {:induction false} DistAt(a: Vec, b: Vec, i: nat)
    requires |a| == |b| && i < |a|
    ensures Abs(b[i] - a[i]) <= Dist(a, b)
  {
    if i > 0 {
      DistAt(a[1..], b[1..], i - 1);
    }
  }

  /** ... and the least one. */
  lemma {:induction false} DistLeast(a: Vec, b: Vec, r: real)
    requires |a| == |b| && 0.0 <= r
    requires forall i | 0 <= i < |a| :: Abs(b[i] - a[i]) <= r
    ensures Dist(a, b) <= r
  {
    if |a| > 0 {
      forall i | 0 <= i < |a| - 1 ensures Abs(b[1..][i] - a[1..][i]) <= r {
        assert a[1..][i] == a[i + 1] && b[1..][i] == b[i + 1];
      }
      DistLeast(a[1..], b[1..], r);
    }
  }

  lemma DistSymmetric(a: Vec, b: Vec)
    requires |a| == |b|
    ensures Dist(a, b) == Dist(b, a)
  {
  }

  lemma DistTriangle(a: Vec, b: Vec, c: Vec)
    requires |a| == |b| == |c|
    ensures Dist(a, c) <= Dist(a, b) + Dist(b, c)
  {
  }

  lemma DistZero(a: Vec, b: Vec)
    requires |a| == |b|
    ensures Dist(a, b) == 0.0 <==> a == b
  {
  }

  // ------------------------------------------------------------------- interpolation

  lemma OneMore(n: nat, d: real)
    ensures (n + 1) as real * d == n as real * d + d
  {
  }

  /** k * x for a factor k >= 0, bounded by k times a bound of x. */
  lemma ScaleAbs(k: real, x: real, y: real) returns (kx: real, ky: real)
    requires 0.0 <= k && Abs(x) <= y
    ensures kx == k * x && ky == k * y && Abs(kx) <= ky
  {
    kx, ky := k * x, k * y;
    ScaleMonotone(k, x, y);
    ScaleMonotone(k, -y, x);
    assert k * (-y) == -ky;
  }

  lemma AbsProduct(x: real, y: real)
    ensures Abs(x * y) == Abs(x) * Abs(y)
  {
  }

  lemma Cancel(x: real, y: real, m: real)
    requires m != 0.0 && x * m == y * m
    ensures x == y
  {
  }

  lemma NonNegative(x: real, y: real)
    requires 0.0 <= x && 0.0 <= y
    ensures 0.0 <= x * y
  {
  }

  lemma PositiveProduct(x: real, y: real, z: real)
    requires x > 0.0 && y > 0.0 && ScaledBy(x, y, z)
    ensures z > 0.0
  {
  }

  lemma ScaleMonotone(k: real, x: real, y: real)
    requires 0.0 <= k && x <= y
    ensures k * x <= k * y
  {
  }

  lemma ScaleStrictly(m: real, x: real, y: real)
    requires m > 0.0 && x < y
    ensures m * x < m * y
  {
  }

  ghost predicate ScaledBy(k: real, x: real, y: real) {
    y == k * x
  }

  lemma ScaledZero(k: real)
    ensures ScaledBy(k, 0.0, 0.0)
  {
  }

  lemma MaxScaled(k: real, x: real, y: real, u: real, v: real)
    requires 0.0 <= k && ScaledBy(k, x, u) && ScaledBy(k, y, v)
    ensures ScaledBy(k, Max(x, y), Max(u, v))
  {
  }

  /** Coordinate differences that are k times those of two other vectors give k times their distance. */
  lemma {:induction false} DistScaled(a: Vec, b: Vec, p: Vec, q: Vec, k: real)
    requires |a| == |b| == |p| == |q| && 0.0 <= k
    requires forall i | 0 <= i < |a| :: ScaledBy(k, Abs(b[i] - a[i]), Abs(q[i] - p[i]))
    ensures ScaledBy(k, Dist(a, b), Dist(p, q))
  {
    hide ScaledBy;
    if |a| == 0 {
      ScaledZero(k);
    } else {
      assert ScaledBy(k, Abs(b[0] - a[0]), Abs(q[0] - p[0]));
      forall i | 0 <= i < |a| - 1
        ensures ScaledBy(k, Abs(b[1..][i] - a[1..][i]), Abs(q[1..][i] - p[1..][i]))
      {
        assert ScaledBy(k, Abs(b[i + 1] - a[i + 1]), Abs(q[i + 1] - p[i + 1]));
      }
      DistScaled(a[1..], b[1..], p[1..], q[1..], k);
      MaxScaled(k, Abs(b[0] - a[0]), Dist(a[1..], b[1..]), Abs(q[0] - p[0]), Dist(p[1..], q[1..]));
    }
  }

  lemma BlendDifference(x: real, y: real, s: real, t: real)
    ensures ScaledBy(Abs(t - s), Abs(y - x), Abs(Blend(x, y, t) - Blend(x, y, s)))
  {
  }

  /** Two poses of one segment are exactly |s - t| of its length apart. */
  lemma LerpDist(a: Vec, b: Vec, s: real, t: real)
    requires |a| == |b|
    ensures ScaledBy(Abs(t - s), Dist(a, b), Dist(Lerp(a, b, s), Lerp(a, b, t)))
  {
    hide Blend, ScaledBy;
    var p, q := Lerp(a, b, s), Lerp(a, b, t);
    forall i | 0 <= i < |a| ensures ScaledBy(Abs(t - s), Abs(b[i] - a[i]), Abs(q[i] - p[i])) {
      BlendDifference(a[i], b[i], s, t);
    }
    DistScaled(a, b, p, q, Abs(t - s));
  }

  lemma LerpWithin(a: Vec, b: Vec, s: real, t: real, r: real)
    requires |a| == |b|
    requires Abs(t - s) * Dist(a, b) <= r
    ensures Dist(Lerp(a, b, s), Lerp(a, b, t)) <= r
  {
    hide Blend, Lerp, Dist;
    LerpDist(a, b, s, t);
  }

  /** Walking the segment the other way visits the same poses. */
  lemma LerpReverse(a: Vec, b: Vec, s: real)
    requires |a| == |b|
    ensures Lerp(a, b, s) == Lerp(b, a, 1.0 - s)
  {
  }

  lemma LerpEnds(a: Vec, b: Vec)
    requires |a| == |b|
    ensures Lerp(a, b, 0.0) == a && Lerp(a, b, 1.0) == b
  {
  }

  lemma BlendBlend(x: real, y: real, s: real, t: real)
    ensures Blend(Blend(x, y, s), y, t) == Blend(x, y, s + t * (1.0 - s))
  {
  }

  /** Interpolating along the rest of a segment stays on the segment. */
  lemma LerpLerp(a: Vec, b: Vec, s: real, t: real)
    requires |a| == |b|
    ensures Lerp(Lerp(a, b, s), b, t) == Lerp(a, b, s + t * (1.0 - s))
  {
    hide Blend;
    var m := Lerp(a, b, s);
    forall i | 0 <= i < |a| ensures Lerp(m, b, t)[i] == Lerp(a, b, s + t * (1.0 - s))[i] {
      BlendBlend(a[i], b[i], s, t);
    }
  }

  lemma BlendMoveEnd(x: real, y: real, z: real, s: real)
    requires 0.0 <= s
    ensures ScaledBy(s, Abs(z - y), Abs(Blend(x, z, s) - Blend(x, y, s)))
  {
  }

  /** Moving one end of a segment by d moves the pose at s by s * d. */
  lemma LerpMoveEnd(a: Vec, b: Vec, c: Vec, s: real)
    requires |a| == |b| == |c|
    requires 0.0 <= s
    ensures ScaledBy(s, Dist(b, c), Dist(Lerp(a, b, s), Lerp(a, c, s)))
  {
    hide Blend, ScaledBy;
    var p, q := Lerp(a, b, s), Lerp(a, c, s);
    forall i | 0 <= i < |a| ensures ScaledBy(s, Abs(c[i] - b[i]), Abs(q[i] - p[i])) {
      BlendMoveEnd(a[i], b[i], c[i], s);
    }
    DistScaled(b, c, p, q, s);
  }

  lemma Fraction(d: real, s: real) returns (e: real)
    requires 0.0 <= d && 0.0 <= s <= 1.0
    ensures 0.0 <= e <= d && e == s * d
  {
    NonNegative(s, d);
    NonNegative(1.0 - s, d);
    e := s * d;
    assert (1.0 - s) * d == d - e;
  }

  lemma BlendBetween(x: real, y: real, s: real, lo: real, hi: real)
    requires lo <= x <= hi && lo <= y <= hi && 0.0 <= s <= 1.0
    ensures lo <= Blend(x, y, s) <= hi
  {
    var e := Fraction(Abs(y - x), s);
    assert Blend(x, y, s) == (if x <= y then x + e else x - e) by {
      assert s * (x - y) == -(s * (y - x));
    }
  }

  /** A box is convex. */
  lemma LerpInBox(a: Vec, b: Vec, s: real, lo: Vec, hi: Vec)
    requires InBox(a, lo, hi) && InBox(b, lo, hi)
    requires 0.0 <= s <= 1.0
    ensures InBox(Lerp(a, b, s), lo, hi)
  {
    hide Blend;
    forall i | 0 <= i < |a| ensures lo[i] <= Lerp(a, b, s)[i] <= hi[i] {
      BlendBetween(a[i], b[i], s, lo[i], hi[i]);
    }
  }

  // ---------------------------------------------------------------------- one step along

  lemma QuotientBound(x: real, y: real, m: real)
    requires m > 0.0
    ensures x <= y * m <==> x / m <= y
  {
  }

  lemma QuotientBoundBelow(x: real, y: real, m: real)
    requires m > 0.0 && x * m <= y
    ensures x <= y / m
  {
  }

  /** b if it is within one step, else the pose one step from a toward b. */
  function Steer(step: real, a: Vec, b: Vec): (q: Vec)
    requires |a| == |b| && step >= 0.0
    ensures |q| == |a|
  {
    var n := Dist(a, b);
    if n <= step then b else Lerp(a, b, step / n)
  }

  lemma FractionLeft(step: real, n: real, d: real)
    requires 0.0 <= step < n && ScaledBy(Abs(1.0 - step / n), n, d)
    ensures d == n - step
  {
  }

  /** A steered step stops a known distance short of its target: none at all when it took the copy branch. */
  lemma SteerGap(step: real, a: Vec, b: Vec)
    requires |a| == |b| && step >= 0.0
    ensures Dist(a, b) <= step ==> Steer(step, a, b) == b
    ensures Dist(a, b) > step ==> Dist(Steer(step, a, b), b) == Dist(a, b) - step
  {
    hide Lerp, Blend, Dist, ScaledBy;
    var n := Dist(a, b);
    if n > step {
      LerpEnds(a, b);
      LerpDist(a, b, step / n, 1.0);
      FractionLeft(step, n, Dist(Steer(step, a, b), b));
    }
  }

  lemma StepLength(step: real, n: real, d: real)
    requires 0.0 <= step < n && ScaledBy(Abs(step / n - 0.0), n, d)
    ensures d == step
  {
  }

  lemma SteerLong(step: real, a: Vec, b: Vec)
    requires |a| == |b| && 0.0 <= step < Dist(a, b)
    ensures Steer(step, a, b) == Lerp(a, b, step / Dist(a, b))
  {
  }
}
