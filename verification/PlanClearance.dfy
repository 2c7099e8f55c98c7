// What a certificate is worth: clearance of every pose of the executed polyline, and pair by pair.
module PlanClearance {
  import opened Options
  import opened JointSpace
  import opened EdgeCheck
  import opened Paths
  import opened Tiers
  import opened HomePlan

  // ------------------------------------------------------------------- the whole polyline

  lemma DropTwice(f: real, L: real, r: real, t: real)
    ensures Drop(Drop(f, L, r), L, t) == Drop(f, L, r + t)
  {
  }

  lemma MarginFurther(margin: Margin, scale: real, p: Vec, q: Vec, L: real, r: real, t: real, f: real)
    requires |p| == |q| && Lipschitz(margin, scale, |p|, L)
    requires Dist(p, q) <= t && margin(q, scale) >= Drop(f, L, r)
    ensures margin(p, scale) >= Drop(f, L, r + t)
  {
    hide Dist, Drop, Lipschitz;
    MarginNear(margin, scale, p, q, L, t, Drop(f, L, r));
    DropTwice(f, L, r, t);
  }

  lemma NearLength(a: Vec, b: Vec, u: Vec, v: Vec)
    requires |a| == |b| == |u| == |v| && Dist(a, u) < JOIN_TOL && Dist(b, v) < JOIN_TOL
    ensures Dist(u, v) <= Dist(a, b) + 2.0 * JOIN_TOL
  {
    hide Dist;
    DistTriangle(u, a, b);
    DistTriangle(u, b, v);
    DistSymmetric(u, a);
  }

  lemma EdgeClear(p: Planner, u: Vec, v: Vec, scale: real, f: real, L: real, s: real, d: real)
    requires p.Valid() && |u| == |v| == p.dim && 0.0 <= s <= 1.0
    requires p.EdgeOk(u, v, scale, f) && Lipschitz(p.margin, scale, p.dim, L) && Dist(u, v) <= d
    ensures p.margin(Lerp(u, v, s), scale) >= Drop(f, L, Spacing(d, p.step) / 2.0)
  {
    hide Lerp, Blend, Dist, Drop, Lipschitz, Certified, Spacing;
    CertifiedSegmentSpaced(p.margin, u, v, scale, p.step, f, L, s, d);
  }

  /** What is clear on u -> v is nearly as clear on an edge with ends within the join tolerance. */
  lemma TransferClear(p: Planner, a: Vec, b: Vec, u: Vec, v: Vec, scale: real, f: real, L: real, s: real, r: real)
    requires |a| == |b| == |u| == |v| == p.dim && 0.0 <= s <= 1.0
    requires Dist(a, u) < JOIN_TOL && Dist(b, v) < JOIN_TOL
    requires Lipschitz(p.margin, scale, p.dim, L)
    requires p.margin(Lerp(u, v, s), scale) >= Drop(f, L, r)
    ensures p.margin(Lerp(a, b, s), scale) >= Drop(f, L, r + JOIN_TOL)
  {
    hide Lerp, Blend, Dist, Drop, Lipschitz;
    p.NearPose(a, b, u, v, s, JOIN_TOL);
    MarginFurther(p.margin, scale, Lerp(a, b, s), Lerp(u, v, s), L, r, JOIN_TOL, f);
  }

  /**
   How far a pose of an accepted edge can be from a pose that was checked: half a sample spacing, which is
   half a check step unless the sample cap bites, and the join tolerance.
   */
  function Slack(p: Planner, a: Vec, b: Vec): (r: real)
    requires |a| == |b|
    ensures Dist(a, b) + 2.0 * JOIN_TOL <= 399.0 * p.step ==> r == p.step / 2.0 + JOIN_TOL
  {
    Spacing(Dist(a, b) + 2.0 * JOIN_TOL, p.step) / 2.0 + JOIN_TOL
  }

  /** A nearly certified edge is clear but for that. */
  lemma NearEdgeClear(p: Planner, a: Vec, b: Vec, scale: real, f: real, L: real, s: real)
    requires p.Valid() && |a| == |b| == p.dim && 0.0 <= s <= 1.0
    requires p.EdgeNear(a, b, scale, f) && Lipschitz(p.margin, scale, p.dim, L)
    ensures p.margin(Lerp(a, b, s), scale) >= Drop(f, L, Slack(p, a, b))
  {
    hide Lerp, Blend, Dist, Drop, Lipschitz, Certified, Spacing;
    var u: Vec, v: Vec :| p.EdgeOk(u, v, scale, f) && Dist(a, u) < JOIN_TOL && Dist(b, v) < JOIN_TOL;
    hide p.EdgeOk;
    NearLength(a, b, u, v);
    var d := Dist(a, b) + 2.0 * JOIN_TOL;
    EdgeClear(p, u, v, scale, f, L, s, d);
    TransferClear(p, a, b, u, v, scale, f, L, s, Spacing(d, p.step) / 2.0);
  }

  /**
   Any plan, from any tier: for a margin of slope at most L, every pose of every leg has margin at
   least min(0, margin of the start) less what L allows over the slack of that leg.
   */
  lemma PlanClear(p: Planner, q0: Vec, home: Vec, path: seq<Vec>, scale: real, L: real, i: nat, s: real)
    requires p.Valid() && |q0| == |home| == p.dim && 0.0 <= s <= 1.0
    requires Certificate(p, q0, home, path, scale, FloorMin(p, q0, scale)) && i < |path|
    requires Lipschitz(p.margin, scale, p.dim, L)
    ensures p.margin(Lerp(Leg(q0, path, i).0, path[i], s), scale) >=
            Drop(FloorMin(p, q0, scale), L, Slack(p, Leg(q0, path, i).0, path[i]))
  {
    hide p.EdgeOk, p.EdgeNear, Drop, Lerp, Dist, FloorMin, Lipschitz, Slack;
    var f := FloorMin(p, q0, scale);
    var pts := [q0] + path;
    var join :| p.CertifiedBut(pts, join, scale, f);
    var a, b := Leg(q0, path, i).0, path[i];
    assert pts[i] == a && pts[i + 1] == b;
    if i != join {
      p.EdgeOkIsNear(a, b, scale, f);
    }
    NearEdgeClear(p, a, b, scale, f, L, s);
  }

  /** Without obstacles the margin is the same everywhere: then the straight path is a plan, with any slope. */
  lemma FreeSpace(p: Planner, q0: Vec, home: Vec, scale: real, m: real, L: real)
    requires p.Valid() && |q0| == |home| == p.dim && m >= 0.0 && L >= 0.0
    requires forall q: Vec :: p.margin(q, scale) == m
    ensures FloorMin(p, q0, scale) == 0.0 && Certificate(p, q0, home, [home], scale, 0.0)
    ensures Lipschitz(p.margin, scale, p.dim, L)
  {
    hide Dist, Lerp;
    EndsContained(p, q0, home);
    assert p.CertifiedBut([q0] + [home], -1, scale, 0.0);
    forall a: Vec, b: Vec | |a| == |b| == p.dim ensures L * Dist(a, b) >= 0.0 {
      NonNegative(L, Dist(a, b));
    }
  }

  /** Leg i of a route: from the previous waypoint, or the start, to waypoint i. */
  function Leg(q0: Vec, path: seq<Vec>, i: nat): (Vec, Vec)
    requires i < |path|
  {
    (if i == 0 then q0 else path[i - 1], path[i])
  }

  /** Not only the waypoints: no pose of any leg of a plan leaves the box of limits, start and home. */
  lemma PlanInBox(p: Planner, q0: Vec, home: Vec, path: seq<Vec>, scale: real, f: real, i: nat, s: real)
    requires p.Valid() && |q0| == |home| == p.dim && 0.0 <= s <= 1.0
    requires Certificate(p, q0, home, path, scale, f) && i < |path|
    ensures InBox(Lerp(Leg(q0, path, i).0, path[i], s), p.BoxLo(q0, home), p.BoxHi(q0, home))
  {
    hide InBox, Lerp, p.CertifiedBut;
    var pts, a, b := [q0] + path, Leg(q0, path, i).0, path[i];
    assert pts[i] == a && pts[i + 1] == b;
    LerpInBox(a, b, s, p.BoxLo(q0, home), p.BoxHi(q0, home));
  }

  // --------------------------------------------------------------------- pair distances

  /** PinkIK._floors: the per-pair floors if there are enough of them, else one default for all. */
  function Floors(pairMin: Option<seq<real>>, n: nat, dMin: real): (fs: seq<real>)
    ensures |fs| == n
  {
    if pairMin.Some? && |pairMin.value| >= n then pairMin.value[..n] else seq(n, _ => dMin)
  }

  /** PinkIK.margin_at, given the pair distances at the pose. */
  function MarginOf(dists: seq<real>, floors: seq<real>, scale: real): real
    requires |dists| == |floors| > 0
  {
    Least(seq(|dists|, k requires 0 <= k < |dists| => dists[k] - scale * floors[k]))
  }

  /** A bound on the least margin is a bound on every pair, each against its own scaled floor. */
  lemma MarginIsPairwise(dists: seq<real>, floors: seq<real>, scale: real, m: real)
    requires |dists| == |floors| > 0
    ensures MarginOf(dists, floors, scale) >= m <==>
            forall k | 0 <= k < |dists| :: dists[k] >= scale * floors[k] + m
  {
    var ms := seq(|dists|, k requires 0 <= k < |dists| => dists[k] - scale * floors[k]);
    assert forall k | 0 <= k < |dists| :: ms[k] in ms && ms[k] == dists[k] - scale * floors[k];
  }

  /** The margin is that of the pair distances at the pose, against these floors. */
  ghost predicate PairMargin(margin: Margin, dim: nat, dist: Vec -> seq<real>, floors: seq<real>) {
    floors != [] && forall q: Vec | |q| == dim ::
      |dist(q)| == |floors| && forall s: real :: margin(q, s) == MarginOf(dist(q), floors, s)
  }

  /**
   Along a plan no pair comes closer than its scaled floor plus min(0, m0), m0 being the margin of the
   start, less what the slope allows between samples.
   */
  lemma PlanKeepsPairsApart(
    p: Planner, q0: Vec, home: Vec, path: seq<Vec>, scale: real, L: real, i: nat, s: real,
    dist: Vec -> seq<real>, pairMin: Option<seq<real>>, n: nat, dMin: real, k: nat)
    requires p.Valid() && |q0| == |home| == p.dim && 0.0 <= s <= 1.0
    requires Certificate(p, q0, home, path, scale, FloorMin(p, q0, scale)) && i < |path|
    requires Lipschitz(p.margin, scale, p.dim, L)
    requires k < n && PairMargin(p.margin, p.dim, dist, Floors(pairMin, n, dMin))
    ensures var q, floors := Lerp(Leg(q0, path, i).0, path[i], s), Floors(pairMin, n, dMin);
            dist(q)[k] >= scale * floors[k] + Drop(FloorMin(p, q0, scale), L, Slack(p, Leg(q0, path, i).0, path[i]))
  {
    hide Lipschitz, Drop, Lerp, Dist, FloorMin, MarginOf, Slack, Floors, p.CertifiedBut, p.Contained;
    var floors := Floors(pairMin, n, dMin);
    PlanClear(p, q0, home, path, scale, L, i, s);
    var q := Lerp(Leg(q0, path, i).0, path[i], s);
    MarginIsPairwise(dist(q), floors, scale, Drop(FloorMin(p, q0, scale), L, Slack(p, Leg(q0, path, i).0, path[i])));
  }

  // "Not deeper than the start" bounds the least margin. A pair that is not the worst may come closer than
  // it was, and the next two statements say exactly when, and that the planner then accepts such a path.

  /** The margin a pose must keep when the pair distances at the start are d0. */
  function NoWorse(d0: seq<real>, floors: seq<real>, scale: real): real
    requires |d0| == |floors| > 0
  {
    Min(0.0, MarginOf(d0, floors, scale))
  }

  /** Every pair at its scaled floor plus m. */
  function AtFloor(floors: seq<real>, scale: real, m: real): (d: seq<real>)
    ensures |d| == |floors| && forall i | 0 <= i < |d| :: d[i] == scale * floors[i] + m
  {
    seq(|floors|, i requires 0 <= i < |floors| => scale * floors[i] + m)
  }

  /** Whatever the geometry, no worse than the start keeps pair k from coming closer exactly when it started at the bound. */
  lemma PairKeptExactlyWhen(d0: seq<real>, floors: seq<real>, scale: real, k: nat)
    requires |d0| == |floors| && k < |d0|
    ensures (forall d: seq<real> | |d| == |d0| && MarginOf(d, floors, scale) >= NoWorse(d0, floors, scale) :: d[k] >= d0[k])
            <==> d0[k] <= scale * floors[k] + NoWorse(d0, floors, scale)
  {
    hide MarginOf, NoWorse;
    var m := NoWorse(d0, floors, scale);
    forall d: seq<real> | |d| == |d0| && MarginOf(d, floors, scale) >= m ensures d[k] >= scale * floors[k] + m {
      MarginIsPairwise(d, floors, scale, m);
    }
    var low := AtFloor(floors, scale, m);
    MarginIsPairwise(low, floors, scale, m);
  }

  /** Pair distances that are d0 at q0 and fall from there at slope L, each no further than to its bound. */
  function Falling(d0: seq<real>, low: seq<real>, q0: Vec, L: real): (dist: Vec -> seq<real>)
    requires |d0| == |low|
    ensures forall q: Vec :: |dist(q)| == |d0|
    ensures forall q: Vec, i | |q| == |q0| && 0 <= i < |d0| :: dist(q)[i] == FallTo(d0[i], low[i], L, Dist(q0, q))
  {
    (q: Vec) => seq(|d0|, i requires 0 <= i < |d0| => FallTo(d0[i], low[i], L, if |q| == |q0| then Dist(q0, q) else 0.0))
  }

  function FallTo(from: real, low: real, L: real, r: real): real {
    Max(low, from - L * r)
  }

  /** One distance: it starts at `from`, never passes its bound, and has slope L. */
  lemma FallSlope(from: real, low: real, L: real, r: real, t: real, d: real)
    requires low <= from && L >= 0.0 && 0.0 <= d && t <= r + d
    ensures low <= FallTo(from, low, L, t) && FallTo(from, low, L, 0.0) == from
    ensures FallTo(from, low, L, t) >= FallTo(from, low, L, r) - L * d
  {
    ScaleMonotone(L, t, r + d);
    NonNegative(L, d);
    assert L * (r + d) == L * r + L * d;
  }

  /** No distance changes faster than L per unit of joint distance. */
  ghost predicate DistSlope(dist: Vec -> seq<real>, n: nat, dim: nat, L: real) {
    forall p: Vec, q: Vec | |p| == |q| == dim ::
      |dist(p)| == |dist(q)| == n && forall i | 0 <= i < n :: dist(p)[i] >= Drop(dist(q)[i], L, Dist(p, q))
  }

  lemma FallingSlope(d0: seq<real>, low: seq<real>, q0: Vec, L: real)
    requires |d0| == |low| && L >= 0.0 && forall i | 0 <= i < |d0| :: low[i] <= d0[i]
    ensures DistSlope(Falling(d0, low, q0, L), |d0|, |q0|, L)
    ensures Falling(d0, low, q0, L)(q0) == d0
    ensures forall q: Vec, i | 0 <= i < |d0| && |q| == |q0| :: low[i] <= Falling(d0, low, q0, L)(q)[i]
  {
    hide Dist, FallTo, Falling;
    var dist := Falling(d0, low, q0, L);
    DistZero(q0, q0);
    forall p: Vec, q: Vec, i | |p| == |q| == |q0| && 0 <= i < |d0|
      ensures dist(p)[i] >= Drop(dist(q)[i], L, Dist(p, q)) && low[i] <= dist(p)[i]
    {
      DistTriangle(q0, q, p);
      DistSymmetric(p, q);
      FallSlope(d0[i], low[i], L, Dist(q0, q), Dist(q0, p), Dist(p, q));
    }
    forall i | 0 <= i < |d0| ensures dist(q0)[i] == d0[i] {
      FallSlope(d0[i], low[i], L, 0.0, 0.0, 0.0);
    }
    assert dist(q0) == d0;
  }

  /** A margin of pair distances has the slope of the distances. */
  lemma PairSlope(margin: Margin, dim: nat, dist: Vec -> seq<real>, floors: seq<real>, scale: real, L: real)
    requires PairMargin(margin, dim, dist, floors) && DistSlope(dist, |floors|, dim, L) && L >= 0.0
    ensures Lipschitz(margin, scale, dim, L)
  {
    hide MarginOf, Dist;
    forall p: Vec, q: Vec | |p| == |q| == dim ensures margin(p, scale) >= Drop(margin(q, scale), L, Dist(p, q)) {
      MarginIsPairwise(dist(q), floors, scale, margin(q, scale));
      MarginIsPairwise(dist(p), floors, scale, Drop(margin(q, scale), L, Dist(p, q)));
    }
  }

  /**
   In every other case there is a geometry, of any slope L > 0, in which the straight path passes the edge test
   and pair k comes closer along it.
   */
  lemma PlanMayClosePair(p: Planner, q0: Vec, home: Vec, d0: seq<real>, floors: seq<real>, scale: real, k: nat, L: real)
    returns (p': Planner, dist: Vec -> seq<real>)
    requires p.Valid() && |q0| == |home| == p.dim && q0 != home && L > 0.0
    requires |d0| == |floors| && k < |d0| && d0[k] > scale * floors[k] + NoWorse(d0, floors, scale)
    ensures p' == p.(margin := p'.margin) && p'.Valid() && PairMargin(p'.margin, p'.dim, dist, floors)
    ensures DistSlope(dist, |floors|, p'.dim, L) && Lipschitz(p'.margin, scale, p'.dim, L)
    ensures p'.EdgeOk(q0, home, scale, FloorMin(p', q0, scale))
    ensures dist(q0) == d0 && dist(home)[k] < d0[k]
  {
    hide MarginOf, Dist, Lerp, DistSlope, Lipschitz, NoWorse, Param, SampleCount, Falling;
    var m := NoWorse(d0, floors, scale);
    var low := AtFloor(floors, scale, m);
    NoWorseBelow(d0, floors, scale);
    dist := Falling(d0, low, q0, L);
    FallingSlope(d0, low, q0, L);
    var margin: Margin := (q: Vec, s: real) => MarginOf(Falling(d0, low, q0, L)(q), floors, s);
    p' := p.(margin := margin);
    PairSlope(margin, p.dim, dist, floors, scale, L);
    forall q: Vec | |q| == p.dim ensures margin(q, scale) >= m {
      MarginIsPairwise(dist(q), floors, scale, m);
    }
    ClosesIn(d0[k], low[k], L, q0, home);
  }

  /** Every pair starts at its bound or above, and the bound is the start's own floor. */
  lemma NoWorseBelow(d0: seq<real>, floors: seq<real>, scale: real)
    requires |d0| == |floors| > 0
    ensures forall i | 0 <= i < |d0| :: scale * floors[i] + NoWorse(d0, floors, scale) <= d0[i]
    ensures NoWorse(d0, floors, scale) == Min(0.0, MarginOf(d0, floors, scale))
  {
    hide MarginOf;
    MarginIsPairwise(d0, floors, scale, NoWorse(d0, floors, scale));
  }

  lemma ClosesIn(from: real, low: real, L: real, a: Vec, b: Vec)
    requires low < from && L > 0.0 && |a| == |b| && a != b
    ensures FallTo(from, low, L, Dist(a, b)) < from
  {
    hide Dist;
    DistZero(a, b);
    ScaleStrictly(L, 0.0, Dist(a, b));
  }
}
