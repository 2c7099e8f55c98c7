// The sampled collision check of one straight joint segment (HomePlanner.edge_margin), and what
// finitely many samples say about every pose in between.
module EdgeCheck {
  import opened Options
  import opened JointSpace

  /** Margin of a pose at a floor scale; negative means inside the scaled floors. */
  type Margin = (Vec, real) -> real

  const MAX_SAMPLES: int := 400

  function Ceil(x: real): int {
    -((-x).Floor)
  }

  lemma CeilIs(x: real)
    ensures Ceil(x) as real - 1.0 < x <= Ceil(x) as real
  {
  }

  function Linspace(n: nat): seq<real>
    requires n >= 2
  {
    seq(n, k => Param(n, k))
  }

  /** The k-th of n parameters equally spaced over [0, 1]. */
  function Param(n: nat, k: int): real
    requires n >= 2
  {
    k as real / (n - 1) as real
  }

  function SampleCount(a: Vec, b: Vec, step: real): (n: nat)
    requires |a| == |b| && step > 0.0
    ensures 2 <= n <= MAX_SAMPLES
  {
    var n := Ceil(Dist(a, b) / step) + 1;
    var n := if n < 2 then 2 else n;
    if n < MAX_SAMPLES then n else MAX_SAMPLES
  }

  /** The fewest samples, but two, whose gaps are no longer than a step; or 400, if those are fewer. */
  lemma FewestSamples(a: Vec, b: Vec, step: real)
    requires |a| == |b| && step > 0.0
    ensures var n := SampleCount(a, b, step);
            && 2 <= n <= 400
            && (n == 400 || (n - 1) as real * step >= Dist(a, b))
            && (n == 2 || (n - 2) as real * step < Dist(a, b))
  {
    hide Dist, Ceil;
    var d := Dist(a, b);
    assert d / step * step == d;
    CeilIs(d / step);
    var n := SampleCount(a, b, step);
    if n < 400 {
      AtLeastSteps((n - 1) as real, d / step, step, d);
    }
    if n > 2 {
      FewerSteps((n - 2) as real, d / step, step, d);
    }
  }

  lemma AtLeastSteps(n: real, x: real, step: real, d: real)
    requires step > 0.0 && x * step == d && n >= x
    ensures n * step >= d
  {
    ScaleMonotone(step, x, n);
  }

  lemma FewerSteps(n: real, x: real, step: real, d: real)
    requires step > 0.0 && x * step == d && n < x
    ensures n * step < d
  {
    var y := x - n;
    assert y * step == d - n * step;
    PositiveProduct(y, step, y * step);
  }

  /** The least element of a non-empty sequence. */
  function Least(xs: seq<real>): (r: real)
    requires xs != []
    ensures r in xs
    ensures forall x | x in xs :: r <= x
  {
    assert xs == [xs[0]] + xs[1..];
    if |xs| == 1 then xs[0] else Min(xs[0], Least(xs[1..]))
  }

  /** Margins at the n equally spaced poses of a -> b, endpoints included. */
  function SampledMargins(margin: Margin, a: Vec, b: Vec, scale: real, n: nat): (ms: seq<real>)
    requires |a| == |b| && n >= 2
    ensures |ms| == n
  {
    seq(n, k => margin(Lerp(a, b, Param(n, k)), scale))
  }

  /** The worst margin over every sampled pose of the segment. */
  function Clearance(margin: Margin, a: Vec, b: Vec, scale: real, step: real): real
    requires |a| == |b| && step > 0.0
  {
    Least(SampledMargins(margin, a, b, scale, SampleCount(a, b, step)))
  }

  /** Every sampled pose of the segment clears f. */
  ghost predicate Certified(margin: Margin, a: Vec, b: Vec, scale: real, step: real, f: real)
    requires |a| == |b| && step > 0.0
  {
    var n := SampleCount(a, b, step);
    forall k | 0 <= k < n :: margin(Lerp(a, b, Param(n, k)), scale) >= f
  }

  lemma CertifiedIsClearance(margin: Margin, a: Vec, b: Vec, scale: real, step: real, f: real)
    requires |a| == |b| && step > 0.0
    ensures Certified(margin, a, b, scale, step, f) <==> Clearance(margin, a, b, scale, step) >= f
  {
    var n := SampleCount(a, b, step);
    var ms := SampledMargins(margin, a, b, scale, n);
    assert forall k | 0 <= k < n :: ms[k] == margin(Lerp(a, b, Param(n, k)), scale) && ms[k] in ms;
  }

  // ---------------------------------------------------------------- the sampling loop

  /** The order the samples are tried in: both endpoints first, far end leading. */
  function TrialOrder(n: nat): (order: seq<real>)
    requires n >= 2
    ensures |order| == n
  {
    var ss := Linspace(n);
    if |ss| > 2 then [1.0, 0.0] + ss[1..|ss| - 1] else [ss[1], ss[0]]
  }

  /** Which equally spaced sample is tried i-th. */
  function TrialIndex(n: nat, i: nat): (k: nat)
    requires n >= 2 && i < n
    ensures k < n
  {
    if i == 0 then n - 1 else i - 1
  }

  /** When sample k is tried. */
  function TrialOf(n: nat, k: nat): (i: nat)
    requires n >= 2 && k < n
    ensures i < n
  {
    if k == n - 1 then 0 else k + 1
  }

  /** The reordering tries every equally spaced sample exactly once. */
  lemma TrialOrderPermutes(n: nat)
    requires n >= 2
    ensures forall i: nat | i < n :: TrialOrder(n)[i] == Param(n, TrialIndex(n, i))
    ensures forall i: nat | i < n :: TrialOf(n, TrialIndex(n, i)) == i
    ensures forall k: nat | k < n :: TrialIndex(n, TrialOf(n, k)) == k
  {
    hide Param;
    ParamEnds(n);
  }

  lemma ParamEnds(n: nat)
    requires n >= 2
    ensures Param(n, 0) == 0.0 && Param(n, n - 1) == 1.0
  {
    WholePart((n - 1) as real);
  }

  lemma WholePart(m: real)
    requires m != 0.0
    ensures 0.0 / m == 0.0 && m / m == 1.0
  {
    assert 0.0 / m * m == 0.0 && m / m * m == m;
    Cancel(m / m, 1.0, m);
  }

  /** The margins in the order they are computed. */
  function Trials(margin: Margin, a: Vec, b: Vec, scale: real, n: nat): (ts: seq<real>)
    requires |a| == |b| && n >= 2
    ensures |ts| == n
  {
    seq(n, i requires 0 <= i < n => margin(Lerp(a, b, TrialOrder(n)[i]), scale))
  }

  lemma TrialsAreSamples(margin: Margin, a: Vec, b: Vec, scale: real, n: nat)
    requires |a| == |b| && n >= 2
    ensures Least(Trials(margin, a, b, scale, n)) == Least(SampledMargins(margin, a, b, scale, n))
  {
    hide Param, TrialOrder, Least;
    TrialOrderPermutes(n);
    var ts, ms := Trials(margin, a, b, scale, n), SampledMargins(margin, a, b, scale, n);
    forall i: nat | i < n ensures ts[i] in ms {
      assert ts[i] == ms[TrialIndex(n, i)];
    }
    forall k: nat | k < n ensures ms[k] in ts {
      assert ms[k] == ts[TrialOf(n, k)];
    }
  }

  /**
   The worst margin over a -> b. With a threshold the loop stops at the first sample below it:
   the verdict "at or above the threshold" is then exactly the verdict of the full scan, and the
   value is the full scan's whenever the edge passes.
   */
  method EdgeMargin(margin: Margin, a: Vec, b: Vec, scale: real, step: real, stopBelow: Option<real>)
    returns (worst: real)
    requires |a| == |b| && step > 0.0
    ensures stopBelow.None? ==> worst == Clearance(margin, a, b, scale, step)
    ensures stopBelow.Some? ==>
              (worst >= stopBelow.value <==> Clearance(margin, a, b, scale, step) >= stopBelow.value)
    ensures stopBelow.Some? && worst >= stopBelow.value ==> worst == Clearance(margin, a, b, scale, step)
    ensures stopBelow.Some? && worst < stopBelow.value ==>
              var ts := Trials(margin, a, b, scale, SampleCount(a, b, step));
              exists i: nat | i < |ts| :: worst == ts[i] && forall t | t in ts[..i] :: t >= stopBelow.value
  {
    hide Param, TrialOrder, Lerp, SampleCount, SampledMargins, Least;
    var n := SampleCount(a, b, step);
    var order := TrialOrder(n);
    ghost var ts := Trials(margin, a, b, scale, n);
    TrialsAreSamples(margin, a, b, scale, n);
    var found: Option<real> := None;
    var i := 0;
    while i < |order|
      invariant 0 <= i <= n
      invariant i > 0 ==> found.Some?
      invariant found.Some? ==> found.value in ts
      invariant forall t | t in ts[..i] :: found.Some? && found.value <= t
      invariant stopBelow.Some? && found.Some? ==> found.value >= stopBelow.value
    {
      var m := margin(Lerp(a, b, order[i]), scale);
      assert m == ts[i] && m in ts;
      assert ts[..i + 1] == ts[..i] + [m];
      if found.None? || m < found.value {
        found := Some(m);
        if stopBelow.Some? && m < stopBelow.value {
          return m;
        }
      }
      i := i + 1;
    }
    worst := found.value;
    assert ts[..n] == ts;
  }

  /** One of the poses the check of a -> b looks at. */
  ghost predicate SampleOf(a: Vec, b: Vec, step: real, q: Vec)
    requires |a| == |b| && step > 0.0
  {
    exists k | 0 <= k < SampleCount(a, b, step) :: q == Lerp(a, b, Param(SampleCount(a, b, step), k))
  }

  /** Certified is about the samples. */
  lemma CertifiedSamples(margin: Margin, a: Vec, b: Vec, scale: real, step: real, f: real)
    requires |a| == |b| && step > 0.0
    ensures Certified(margin, a, b, scale, step, f) <==> forall q: Vec | SampleOf(a, b, step, q) :: margin(q, scale) >= f
  {
    hide Lerp, Param, SampleCount;
    var n := SampleCount(a, b, step);
    if forall q: Vec | SampleOf(a, b, step, q) :: margin(q, scale) >= f {
      forall k | 0 <= k < n ensures margin(Lerp(a, b, Param(n, k)), scale) >= f {
        assert SampleOf(a, b, step, Lerp(a, b, Param(n, k)));
      }
    }
  }

  /** Both ends of a certified edge are samples of it. */
  lemma EndSamples(margin: Margin, a: Vec, b: Vec, scale: real, step: real, f: real)
    requires |a| == |b| && step > 0.0 && Certified(margin, a, b, scale, step, f)
    ensures margin(a, scale) >= f && margin(b, scale) >= f
  {
    hide Lerp, Dist, SampleCount, Param;
    LerpEnds(a, b);
    var n := SampleCount(a, b, step);
    ParamEnds(n);
    assert margin(Lerp(a, b, Param(n, 0)), scale) >= f && margin(Lerp(a, b, Param(n, n - 1)), scale) >= f;
  }

  /** An edge no longer than the check step is sampled at its ends only. */
  lemma ShortEdge(margin: Margin, a: Vec, b: Vec, scale: real, step: real, f: real)
    requires |a| == |b| && step > 0.0 && Dist(a, b) <= step
    requires margin(a, scale) >= f && margin(b, scale) >= f
    ensures Certified(margin, a, b, scale, step, f)
  {
    hide Lerp, Dist;
    QuotientBound(Dist(a, b), 1.0, step);
    assert SampleCount(a, b, step) == 2;
    LerpEnds(a, b);
    assert Param(2, 0) == 0.0 && Param(2, 1) == 1.0;
  }

  // ------------------------------------------------------------------- both directions

  lemma ParamReverse(n: nat, k: int)
    requires n >= 2
    ensures 1.0 - Param(n, k) == Param(n, n - 1 - k)
  {
    var m := (n - 1) as real;
    var x, y := Param(n, k), Param(n, n - 1 - k);
    assert x * m == k as real;
    assert y * m == m - k as real;
    assert (x + y) * m == x * m + y * m;
    Cancel(x + y, 1.0, m);
  }

  /** Sample k of a -> b is sample n-1-k of b -> a, so an edge may be walked either way. */
  lemma CertifiedReverse(margin: Margin, a: Vec, b: Vec, scale: real, step: real, f: real)
    requires |a| == |b| && step > 0.0
    requires Certified(margin, a, b, scale, step, f)
    ensures Certified(margin, b, a, scale, step, f)
  {
    hide Param;
    DistSymmetric(a, b);
    var n := SampleCount(a, b, step);
    assert SampleCount(b, a, step) == n;
    forall k | 0 <= k < n ensures margin(Lerp(b, a, Param(n, k)), scale) >= f {
      ParamReverse(n, k);
      LerpReverse(b, a, Param(n, k));
      assert margin(Lerp(a, b, Param(n, n - 1 - k)), scale) >= f;
    }
  }

  // --------------------------------------------------------- from samples to the segment

  /** The least margin that a slope of L allows at distance r from a pose with margin f. */
  ghost function Drop(f: real, L: real, r: real): real {
    f - L * r
  }

  lemma DropMonotone(f: real, g: real, L: real, r: real, t: real)
    requires L >= 0.0 && f <= g && t <= r
    ensures Drop(f, L, r) <= Drop(g, L, t)
  {
  }

  /** The margin moves at most L per unit of joint distance. */
  ghost predicate Lipschitz(margin: Margin, scale: real, dim: nat, L: real) {
    L >= 0.0 && forall p: Vec, q: Vec {:trigger margin(p, scale), margin(q, scale)} | |p| == |q| == dim ::
                  margin(p, scale) >= Drop(margin(q, scale), L, Dist(p, q))
  }

  /** A pose within r of one with margin f. */
  lemma MarginNear(margin: Margin, scale: real, p: Vec, q: Vec, L: real, r: real, f: real)
    requires |p| == |q| && Lipschitz(margin, scale, |p|, L)
    requires Dist(p, q) <= r && margin(q, scale) >= f
    ensures margin(p, scale) >= Drop(f, L, r)
  {
    hide Dist, Drop;
    DropMonotone(f, margin(q, scale), L, r, Dist(p, q));
  }

  /** Joint distance between neighbouring samples. */
  function Gap(a: Vec, b: Vec, step: real): real
    requires |a| == |b| && step > 0.0
  {
    Dist(a, b) / (SampleCount(a, b, step) - 1) as real
  }

  lemma CeilBound(d: real, step: real, m: int)
    requires step > 0.0 && Ceil(d / step) <= m
    ensures d <= step * m as real
  {
  }

  /** How far apart the samples of an edge of length at most d can be: a check step, unless the sample cap bites. */
  function Spacing(d: real, step: real): (g: real)
    ensures d <= 399.0 * step ==> g == step
  {
    if d <= 399.0 * step then step else Max(step, d / 399.0)
  }

  lemma GapBound(a: Vec, b: Vec, step: real, d: real)
    requires |a| == |b| && step > 0.0 && Dist(a, b) <= d
    ensures Gap(a, b, step) <= Spacing(d, step)
  {
    hide Dist, Ceil;
    var l, n := Dist(a, b), SampleCount(a, b, step);
    if n < MAX_SAMPLES {
      CeilBound(l, step, n - 1);
      QuotientBound(l, step, (n - 1) as real);
    } else {
      assert (n - 1) as real == 399.0;
    }
  }

  /** Some sample lies within half a spacing of any pose of a segment of length d. */
  lemma NearestSample(n: nat, s: real, d: real) returns (k: nat)
    requires n >= 2 && 0.0 <= s <= 1.0 && 0.0 <= d
    ensures k < n
    ensures Abs(Param(n, k) - s) * d <= d / (n - 1) as real / 2.0
  {
    var m := (n - 1) as real;
    var x := Fraction(m, s);
    k := (x + 0.5).Floor;
    var p := Param(n, k);
    assert p * m == k as real;
    assert (p - s) * m == k as real - x;
    AbsProduct(p - s, m);
    HalfGap(Abs(p - s), d, m);
  }

  lemma HalfGap(e: real, d: real, m: real)
    requires e * m <= 0.5 && m > 0.0 && d >= 0.0
    ensures e * d <= d / m / 2.0
  {
  }

  /** Every pose of a segment is within half a sample spacing of a sampled pose. */
  lemma SampleNearby(a: Vec, b: Vec, step: real, s: real) returns (k: nat)
    requires |a| == |b| && step > 0.0 && 0.0 <= s <= 1.0
    ensures k < SampleCount(a, b, step)
    ensures Dist(Lerp(a, b, s), Lerp(a, b, Param(SampleCount(a, b, step), k))) <= Gap(a, b, step) / 2.0
  {
    hide Param, Lerp, Dist, SampleCount;
    var n := SampleCount(a, b, step);
    k := NearestSample(n, s, Dist(a, b));
    LerpWithin(a, b, s, Param(n, k), Gap(a, b, step) / 2.0);
  }

  /**
   A certified edge is clear between its samples too: for a margin of slope at most L, no pose of
   the whole segment is more than L * (half a sample spacing) below what the samples certify.
   */
  lemma CertifiedSegment(margin: Margin, a: Vec, b: Vec, scale: real, step: real, f: real, L: real, s: real)
    requires |a| == |b| && step > 0.0 && 0.0 <= s <= 1.0
    requires Lipschitz(margin, scale, |a|, L)
    requires Certified(margin, a, b, scale, step, f)
    ensures margin(Lerp(a, b, s), scale) >= Drop(f, L, Gap(a, b, step) / 2.0)
  {
    hide Param, Lerp, Gap, SampleCount, Dist, Drop;
    var k := SampleNearby(a, b, step, s);
    var q := Lerp(a, b, Param(SampleCount(a, b, step), k));
    MarginNear(margin, scale, Lerp(a, b, s), q, L, Gap(a, b, step) / 2.0, f);
  }

  /** ... which is half a check step at most, whenever the sample cap does not bite. */
  lemma CertifiedSegmentSpaced(
    margin: Margin, a: Vec, b: Vec, scale: real, step: real, f: real, L: real, s: real, d: real)
    requires |a| == |b| && step > 0.0 && 0.0 <= s <= 1.0
    requires Lipschitz(margin, scale, |a|, L)
    requires Certified(margin, a, b, scale, step, f) && Dist(a, b) <= d
    ensures margin(Lerp(a, b, s), scale) >= Drop(f, L, Spacing(d, step) / 2.0)
  {
    hide Certified, Lerp, Gap, Spacing, Dist, Drop;
    CertifiedSegment(margin, a, b, scale, step, f, L, s);
    GapBound(a, b, step, d);
    DropMonotone(f, f, L, Spacing(d, step) / 2.0, Gap(a, b, step) / 2.0);
  }
}
