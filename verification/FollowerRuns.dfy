// The follower's feed over whole runs: the output shaper keeps up with it, and on a certified route it stays
// as clear of collision as the route.
module FollowerRuns {
  import opened Options
  import opened JointSpace
  import opened EdgeCheck
  import opened Paths
  import opened HomePlan
  import opened PlanClearance
  import opened HomeRamp
  import opened CommandShaper
  import opened ShaperRuns
  import opened SegmentFeed

  // ------------------------------------------------------------------ the shaper keeps up

  function SampleTime(t0: real, dt: real, k: nat): real {
    if k == 0 then t0 else SampleTime(t0, dt, k - 1) + dt
  }

  ghost predicate FeedSet(hs: seq<Seg>, dim: nat) {
    hs != [] && forall k | 0 <= k < |hs| :: SegOk(hs[k], dim)
  }

  /**
   When the target a pass sees was read from the feed: never later than the pass, at most `hold` before it, and
   at most `hop` after the one the pass before it saw.
   */
  ghost predicate ReadTimes(taus: seq<real>, t0: real, dt: real, hold: real, hop: real) {
    && (forall k | 0 <= k < |taus| :: taus[k] <= SampleTime(t0, dt, k) <= taus[k] + hold)
    && forall j, k | 0 <= j && k == j + 1 && k < |taus| :: taus[j] <= taus[k] <= taus[j] + hop
  }

  /** What the shaper is given when pass k sees the feed as it was at taus[k]. */
  ghost function Fed(hs: seq<Seg>, dim: nat, taus: seq<real>, dt: real): (fs: seq<Feed>)
    requires FeedSet(hs, dim)
    ensures |fs| == |taus|
    ensures forall k | 0 <= k < |taus| :: fs[k] == Feed(Some(FeedAt(hs, taus[k], dim)), None, true, dt)
  {
    seq(|taus|, k requires 0 <= k < |taus| => Feed(Some(FeedAt(hs, taus[k], dim)), None, true, dt))
  }

  /** Where the feed is at each pass. */
  ghost function FeedNow(hs: seq<Seg>, dim: nat, t0: real, dt: real, n: nat): (refs: seq<Vec>)
    requires FeedSet(hs, dim)
    ensures |refs| == n
    ensures forall k | 0 <= k < n :: refs[k] == FeedAt(hs, SampleTime(t0, dt, k), dim)
  {
    seq(n, k requires 0 <= k < n => FeedAt(hs, SampleTime(t0, dt, k), dim))
  }

  /** The feed at times s <= t no more than r apart. */
  lemma {:induction false} FeedWithin(hs: seq<Seg>, v: real, dim: nat, s: real, t: real, r: real, d: real)
    requires FeedSet(hs, dim) && Chained(hs, v, dim) && v >= 0.0 && hs[0].t0 <= s <= t <= s + r && PerPass(v, r, d)
    ensures Dist(FeedAt(hs, s, dim), FeedAt(hs, t, dim)) <= d
  {
    hide Chained, FeedAt, Dist;
    FeedNeverFaster(hs, v, dim, s, t);
    ScaleMonotone(v, t - s, r);
  }

  lemma {:induction false} NextSample(t0: real, dt: real, j: nat)
    ensures SampleTime(t0, dt, j + 1) == SampleTime(t0, dt, j) + dt
  {
  }

  lemma {:induction false} ReadAfter(taus: seq<real>, t0: real, dt: real, hold: real, hop: real, k: nat)
    requires ReadTimes(taus, t0, dt, hold, hop) && k < |taus|
    ensures taus[k] >= taus[0]
  {
    if k > 0 {
      var j := k - 1;
      ReadAfter(taus, t0, dt, hold, hop, j);
    }
  }

  lemma {:induction false} FedIsHeld(
    hs: seq<Seg>, v: real, dim: nat, taus: seq<real>, t0: real, dt: real, hold: real, hop: real,
    off: real, jump: real, du: real)
    requires FeedSet(hs, dim) && Chained(hs, v, dim) && v >= 0.0 && dt > 0.0
    requires ReadTimes(taus, t0, dt, hold, hop) && taus != [] && hs[0].t0 <= taus[0]
    requires PerPass(v, hold, off) && PerPass(v, hop, jump) && PerPass(v, dt, du)
    ensures FeedsOk(Fed(hs, dim, taus, dt))
    ensures HeldFeed(Fed(hs, dim, taus, dt), FeedNow(hs, dim, t0, dt, |taus|), Held(v, off, jump, dt), du)
  {
    hide Chained, FeedAt, Dist, PerPass, SampleTime;
    var fs, refs := Fed(hs, dim, taus, dt), FeedNow(hs, dim, t0, dt, |taus|);
    forall k | 0 <= k < |fs| ensures Dist(refs[k], fs[k].target.value) <= off {
      ReadAfter(taus, t0, dt, hold, hop, k);
      FeedWithin(hs, v, dim, taus[k], SampleTime(t0, dt, k), hold, off);
      DistSymmetric(refs[k], fs[k].target.value);
    }
    forall j, k | 0 <= j && k == j + 1 && k < |fs|
      ensures Dist(refs[j], refs[k]) <= du && Dist(fs[j].target.value, fs[k].target.value) <= jump
    {
      ReadAfter(taus, t0, dt, hold, hop, j);
      NextSample(t0, dt, j);
      FeedWithin(hs, v, dim, SampleTime(t0, dt, j), SampleTime(t0, dt, k), dt, du);
      FeedWithin(hs, v, dim, taus[j], taus[k], hop, jump);
    }
  }

  /**
   The feed as the shaper really sees it, each target held until the next one is set: at every pass what the
   shaper publishes is within v / kp and what the feed moves in one hold of where the feed is at that moment, no
   limit binds and no resync fires.
   */
  lemma {:induction false} ShaperFollowsHeldFeed(
    p: Params, hs: seq<Seg>, v: real, dim: nat, taus: seq<real>, t0: real, dt: real, hold: real, hop: real,
    off: real, jump: real, du: real, k: nat)
    requires Kept(p, Held(v, off, jump, dt)) && FeedSet(hs, dim) && Chained(hs, v, dim)
    requires ReadTimes(taus, t0, dt, hold, hop) && 0 < k < |taus| && hs[0].t0 <= taus[0]
    requires PerPass(v, hold, off) && PerPass(v, hop, jump) && PerPass(v, dt, du)
    ensures var fs := Fed(hs, dim, taus, dt);
            && FeedsOk(fs)
            && var s, now := ShaperRuns.After(p, None, fs, k), FeedAt(hs, SampleTime(t0, dt, k), dim);
            s.Some? && |s.value.q| == |now| && AllIdle(p, s.value, fs[k].target.value, dt)
            && Dist(s.value.q, now) <= Behind(p, Held(v, off, jump, dt)) && !OutOfReach(p, s, fs[k].target.value)
  {
    var h := Held(v, off, jump, dt);
    assert v >= 0.0 && dt > 0.0 && p.kp > 0.0;
    hide Kept, PerPass, HeldFeed, Chained, FeedAt, SampleTime, Dist, AllIdle, ReadTimes, Behind;
    FedIsHeld(hs, v, dim, taus, t0, dt, hold, hop, off, jump, du);
    HeldLagBound(p, h, du, Fed(hs, dim, taus, dt), FeedNow(hs, dim, t0, dt, |taus|), k);
  }

  /** Read at the passes themselves: within v / kp of the feed, at any pace the shaper can follow. */
  lemma {:induction false} ShaperFollowsFeed(p: Params, hs: seq<Seg>, v: real, dim: nat, t0: real, dt: real, du: real, n: nat, k: nat)
    requires Followable(p, v, dt) && PerPass(v, dt, du) && FeedSet(hs, dim) && Chained(hs, v, dim) && hs[0].t0 <= t0
    requires 0 < k < n
    ensures var taus := seq(n, i requires 0 <= i < n => SampleTime(t0, dt, i));
            var fs := Fed(hs, dim, taus, dt);
            && FeedsOk(fs)
            && var s, now := ShaperRuns.After(p, None, fs, k), FeedAt(hs, SampleTime(t0, dt, k), dim);
            s.Some? && |s.value.q| == |now| && AllIdle(p, s.value, now, dt)
            && Dist(s.value.q, now) <= v / p.kp && !OutOfReach(p, s, now)
  {
    assert dt > 0.0;
    hide Kept, Chained, FeedAt, Dist, AllIdle;
    FollowableKept(p, v, dt, du);
    hide Followable;
    var taus := seq(n, i requires 0 <= i < n => SampleTime(t0, dt, i));
    assert ReadTimes(taus, t0, dt, 0.0, dt) by {
      forall j, i | 0 <= j && i == j + 1 && i < n ensures taus[j] <= taus[i] <= taus[j] + dt {
        NextSample(t0, dt, j);
      }
    }
    ShaperFollowsHeldFeed(p, hs, v, dim, taus, t0, dt, 0.0, dt, 0.0, du, du, k);
  }

  // ---------------------------------------------------- the fed targets of a certified route

  /** Leg i of the route, among the legs walked: one later if the target first goes back to the arm. */
  function LegNo(back: bool, i: nat): nat {
    if back then i + 1 else i
  }

  lemma {:induction false} ValueOnSegment(g: Seg, t: real)
    requires |g.from| == |g.to| && g.t0 <= t
    ensures OnSegment(g.from, g.to, ValueAt(g, t))
  {
    hide Lerp, Progress;
    ProgressUnit(g, t);
    assert ValueAt(g, t) == Lerp(g.from, g.to, Progress(g, t));
  }

  lemma {:induction false} ProgressUnit(g: Seg, t: real)
    requires g.t0 <= t
    ensures 0.0 <= Progress(g, t) <= 1.0
  {
    if g.span > 0.0 {
      QuotientBoundBelow(0.0, t - g.t0, g.span);
    }
  }

  /**
   The legs are walked for a path certified from the measured pose, from the standing target if there is one and
   else from the measured pose.
   */
  ghost predicate WalksRoute(
    p: Planner, measured: Vec, home: Vec, path: seq<Vec>, scale: real, lead: real, v: real,
    target: Option<Vec>, start: Vec, legs: seq<Seg>)
  {
    && p.Valid() && |measured| == |home| == |start| == p.dim && lead >= 0.0
    && Certificate(p, measured, home, path, scale, FloorMin(p, measured, scale))
    && start == (if target.Some? then target.value else measured)
    && LegsOk(legs, start, Walked(path, target, measured, lead), v, p.dim)
  }

  /** By time t the target has set out on the first leg of the route, after any leg back to the arm. */
  ghost predicate SetOut(target: Option<Vec>, measured: Vec, lead: real, legs: seq<Seg>, t: real) {
    && (target.Some? ==> |target.value| == |measured|)
    && var first := LegNo(target.Some? && Dist(target.value, measured) > lead, 0);
       first < |legs| && legs[first].t0 <= t
  }

  /** How far the fed target can be from a checked pose: the slack of the leg, and on the first one the lead. */
  function OffLeg(p: Planner, measured: Vec, path: seq<Vec>, i: nat, target: Option<Vec>, lead: real): real
    requires i < |path| && |Leg(measured, path, i).0| == |path[i]| && (target.Some? ==> |target.value| == |measured|)
  {
    Slack(p, Leg(measured, path, i).0, path[i])
    + if i == 0 && target.Some? && Dist(target.value, measured) <= lead then lead else 0.0
  }

  /**
   Walking a route certified from the measured pose, every target fed on its legs is as clear as the route,
   less what the slope allows over the slack of the leg, and on the first leg over the lead when the target did
   not start from the arm. A leg back to the arm is the only other leg there is: no check covers it.
   */
  lemma {:induction false} FedTargetClear(
    p: Planner, measured: Vec, home: Vec, path: seq<Vec>, scale: real, L: real, lead: real, v: real,
    target: Option<Vec>, start: Vec, legs: seq<Seg>, i: nat, t: real)
    requires WalksRoute(p, measured, home, path, scale, lead, v, target, start, legs) && Lipschitz(p.margin, scale, p.dim, L)
    requires var back := target.Some? && Dist(target.value, measured) > lead;
             i < |path| && LegNo(back, i) < |legs| && legs[LegNo(back, i)].t0 <= t
    ensures var back := target.Some? && Dist(target.value, measured) > lead;
            && |legs[LegNo(back, i)].from| == |legs[LegNo(back, i)].to| == p.dim && |Leg(measured, path, i).0| == |path[i]| == p.dim
            && p.margin(ValueAt(legs[LegNo(back, i)], t), scale) >=
               Drop(FloorMin(p, measured, scale), L, OffLeg(p, measured, path, i, target, lead))
  {
    hide Dist, Drop, Lipschitz, FloorMin, Certificate, LegsOk, Walked, ValueAt, Slack, WalksRoute, AllSized, Leg;
    WalkFacts(p, measured, home, path, scale, lead, v, target, start, legs);
    var g, from := RouteLeg(path, target, measured, lead, start, legs, v, p.dim, i);
    var off := if target.Some? && Dist(target.value, measured) <= lead then lead else 0.0;
    RouteLegClear(p, measured, home, path, scale, L, from, off, g, i, t);
  }

  lemma {:induction false} WalkFacts(
    p: Planner, measured: Vec, home: Vec, path: seq<Vec>, scale: real, lead: real, v: real,
    target: Option<Vec>, start: Vec, legs: seq<Seg>)
    requires WalksRoute(p, measured, home, path, scale, lead, v, target, start, legs)
    ensures p.Valid() && |measured| == |home| == |start| == p.dim && lead >= 0.0 && AllSized(path, p.dim)
    ensures Certificate(p, measured, home, path, scale, FloorMin(p, measured, scale))
    ensures (target.Some? ==> |target.value| == p.dim) && start == if target.Some? then target.value else measured
    ensures LegsOk(legs, start, Walked(path, target, measured, lead), v, p.dim)
  {
    hide Dist, LegsOk, FloorMin, Walked, p.CertifiedBut, p.Contained, p.Valid;
  }

  /** On a leg that starts within `off` of the measured pose, or at a waypoint. */
  lemma {:induction false} RouteLegClear(
    p: Planner, measured: Vec, home: Vec, path: seq<Vec>, scale: real, L: real, from: Vec, off: real, g: Seg, i: nat, t: real)
    requires p.Valid() && |measured| == |home| == |from| == p.dim && off >= 0.0 && AllSized(path, p.dim) && i < |path|
    requires Certificate(p, measured, home, path, scale, FloorMin(p, measured, scale)) && Lipschitz(p.margin, scale, p.dim, L)
    requires g.to == path[i] && g.from == Leg(from, path, i).0 && g.t0 <= t && Dist(from, measured) <= off
    ensures |g.from| == |g.to| == p.dim && |Leg(measured, path, i).0| == |path[i]| == p.dim
    ensures p.margin(ValueAt(g, t), scale) >=
            Drop(FloorMin(p, measured, scale), L, Slack(p, Leg(measured, path, i).0, path[i]) + if i == 0 then off else 0.0)
  {
    hide Dist, Drop, Lipschitz, FloorMin, Certificate, ValueAt, Slack, OnSegment, p.Valid;
    ValueOnSegment(g, t);
    CommandClear(p, measured, home, from, Ramp(path, i, ValueAt(g, t), None, None), scale, L, off);
  }

  /** The leg walked for leg i of the route, and where a walk of the route itself would have started. */
  lemma {:induction false} RouteLeg(
    path: seq<Vec>, target: Option<Vec>, measured: Vec, lead: real, start: Vec, legs: seq<Seg>, v: real, dim: nat, i: nat)
    returns (g: Seg, from: Vec)
    requires |measured| == |start| == dim && (target.Some? ==> |target.value| == dim) && lead >= 0.0
    requires AllSized(path, dim)
    requires start == if target.Some? then target.value else measured
    requires LegsOk(legs, start, Walked(path, target, measured, lead), v, dim)
    requires i < |path| && LegNo(target.Some? && Dist(target.value, measured) > lead, i) < |legs|
    ensures var back := target.Some? && Dist(target.value, measured) > lead;
            && g == legs[LegNo(back, i)] && |g.from| == |g.to| == dim && |from| == dim
            && Dist(from, measured) <= (if target.Some? && Dist(target.value, measured) <= lead then lead else 0.0)
            && g.to == path[i] && g.from == Leg(from, path, i).0
  {
    hide Dist, Paced;
    var back := target.Some? && Dist(target.value, measured) > lead;
    var pts, k := Walked(path, target, measured, lead), LegNo(back, i);
    g, from := legs[k], if back then measured else start;
    assert LegOk(g, Before(start, pts, k), pts[k], v, dim);
    DistZero(measured, measured);
  }

  // ------------------------------------------------------------------- the leg back to the arm

  /** A pose that the check of some edge of the path looked at. */
  ghost predicate CheckedPose(step: real, dim: nat, pts: seq<Vec>, q: Vec)
    requires step > 0.0 && AllSized(pts, dim)
  {
    exists i, j | 0 <= i && j == i + 1 && j < |pts| :: SampleOf(pts[i], pts[j], step, q)
  }

  ghost predicate AllSized(pts: seq<Vec>, dim: nat) {
    forall i | 0 <= i < |pts| :: |pts[i]| == dim
  }

  ghost predicate Apart(q: Vec, target: Vec, d: real) {
    |q| == |target| && Dist(q, target) >= d
  }

  /** d is the distance from the target to the nearest checked pose. */
  ghost predicate NearestChecked(step: real, dim: nat, pts: seq<Vec>, target: Vec, d: real)
    requires step > 0.0 && AllSized(pts, dim)
  {
    && (forall q: Vec | CheckedPose(step, dim, pts, q) :: Apart(q, target, d))
    && exists q: Vec | CheckedPose(step, dim, pts, q) :: |q| == |target| && Dist(q, target) == d
  }

  /** Every certified pose bounds the margin around it: the target has the floor less L times d. */
  lemma {:induction false} BackLegBound(p: Planner, pts: seq<Vec>, scale: real, f: real, L: real, target: Vec, d: real)
    requires p.Valid() && p.CertifiedPath(pts, scale, f) && Lipschitz(p.margin, scale, p.dim, L) && |target| == p.dim
    requires AllSized(pts, p.dim) && NearestChecked(p.step, p.dim, pts, target, d)
    ensures p.margin(target, scale) >= Drop(f, L, d)
  {
    hide Dist, Drop, Lipschitz, SampleOf, Certified, p.EdgeNear;
    var q: Vec :| CheckedPose(p.step, p.dim, pts, q) && |q| == |target| && Dist(q, target) == d;
    var i, j :| 0 <= i && j == i + 1 && j < |pts| && SampleOf(pts[i], pts[j], p.step, q);
    assert p.EdgeOk(pts[i], pts[i + 1], scale, f);
    CertifiedSamples(p.margin, pts[i], pts[i + 1], scale, p.step, f);
    DistSymmetric(q, target);
    MarginNear(p.margin, scale, target, q, L, d, f);
  }

  /** A margin that falls toward the target at slope L and is 0 at distance d. */
  function FallingToward(target: Vec, L: real, d: real): Margin {
    (q: Vec, s: real) => if |q| == |target| then L * Dist(q, target) - L * d else 0.0
  }

  lemma {:induction false} TowardSlope(target: Vec, L: real, d: real, scale: real)
    requires L >= 0.0
    ensures Lipschitz(FallingToward(target, L, d), scale, |target|, L)
    ensures forall q: Vec | Apart(q, target, d) :: FallingToward(target, L, d)(q, scale) >= 0.0
    ensures FallingToward(target, L, d)(target, scale) == Drop(0.0, L, d)
  {
    hide Dist;
    var margin := FallingToward(target, L, d);
    DistZero(target, target);
    forall a: Vec, b: Vec | |a| == |b| == |target| ensures margin(a, scale) >= Drop(margin(b, scale), L, Dist(a, b)) {
      DistTriangle(b, a, target);
      DistSymmetric(a, b);
      ScaleMonotone(L, Dist(b, target), Dist(a, b) + Dist(a, target));
      assert L * (Dist(a, b) + Dist(a, target)) == L * Dist(a, b) + L * Dist(a, target);
    }
    forall q: Vec | Apart(q, target, d) ensures margin(q, scale) >= 0.0 {
      ScaleMonotone(L, d, Dist(q, target));
    }
  }

  /**
   No more than that holds: whatever the path, the slope and the standing target, there is a geometry of that
   slope in which the path is certified at the full floor and the first pose fed on the leg back to the arm, the
   standing target itself, falls L times d below it: strictly below, unless it is itself a checked pose.
   */
  lemma {:induction false} BackLegUncovered(
    p: Planner, measured: Vec, home: Vec, path: seq<Vec>, scale: real, L: real, lead: real, v: real,
    target: Vec, legs: seq<Seg>, d: real)
    returns (p': Planner)
    requires p.Valid() && |measured| == |home| == |target| == p.dim && L >= 0.0
    requires path != [] && AllSized(path, p.dim) && p.Contained([measured] + path, measured, home)
    requires AllSized([measured] + path, p.dim) && NearestChecked(p.step, p.dim, [measured] + path, target, d)
    requires Dist(target, measured) > lead && legs != [] && LegsOk(legs, target, Walked(path, Some(target), measured, lead), v, p.dim)
    ensures p' == p.(margin := p'.margin) && p'.Valid() && Lipschitz(p'.margin, scale, p'.dim, L)
    ensures FloorMin(p', measured, scale) == 0.0 && Certificate(p', measured, home, path, scale, 0.0)
    ensures |legs[0].from| == |legs[0].to| && ValueAt(legs[0], legs[0].t0) == target
    ensures p'.margin(target, scale) == Drop(0.0, L, d)
    ensures L > 0.0 && !CheckedPose(p.step, p.dim, [measured] + path, target) ==> p'.margin(target, scale) < 0.0
  {
    hide Dist, Drop, Lipschitz, Certificate, NearestChecked, LegsOk, ValueAt, FallingToward, InBox;
    p' := p.(margin := FallingToward(target, L, d));
    TowardSlope(target, L, d, scale);
    AwayCertified(p, p', measured, path, scale, target, L, d);
    CertificateOf(p', measured, home, path, scale);
    BackLegStarts(legs, target, [measured] + path, v, p.dim);
    if L > 0.0 && !CheckedPose(p.step, p.dim, [measured] + path, target) {
      BelowFloor(p, [measured] + path, target, L, d);
    }
  }

  lemma {:induction false} BelowFloor(p: Planner, pts: seq<Vec>, target: Vec, L: real, d: real)
    requires p.Valid() && AllSized(pts, p.dim) && NearestChecked(p.step, p.dim, pts, target, d)
    requires L > 0.0 && !CheckedPose(p.step, p.dim, pts, target)
    ensures Drop(0.0, L, d) < 0.0
  {
    hide CheckedPose, Dist;
    var q: Vec :| CheckedPose(p.step, p.dim, pts, q) && |q| == |target| && Dist(q, target) == d;
    DistZero(q, target);
    ScaleStrictly(L, 0.0, d);
  }

  /** On a path at least d away from the target that geometry certifies every edge at the full floor. */
  lemma {:induction false} AwayCertified(p: Planner, p': Planner, measured: Vec, path: seq<Vec>, scale: real, target: Vec, L: real, d: real)
    requires p.Valid() && p' == p.(margin := FallingToward(target, L, d)) && p'.Valid()
    requires path != [] && |target| == p.dim && L >= 0.0 && AllSized([measured] + path, p.dim)
    requires NearestChecked(p.step, p.dim, [measured] + path, target, d)
    ensures p'.CertifiedPath([measured] + path, scale, 0.0) && p'.margin(measured, scale) >= 0.0
  {
    hide Dist, SampleOf, Certified, Apart, FallingToward, p'.EdgeNear, Lipschitz, NearestChecked;
    var pts := [measured] + path;
    TowardSlope(target, L, d, scale);
    forall i | 0 <= i < |pts| - 1 ensures Certified(p'.margin, pts[i], pts[i + 1], scale, p'.step, 0.0) {
      EdgeAway(p.step, p.dim, pts, i, target, d);
      CertifiedSamples(p'.margin, pts[i], pts[i + 1], scale, p'.step, 0.0);
    }
    EndSamples(p'.margin, pts[0], pts[1], scale, p'.step, 0.0);
  }

  lemma {:induction false} EdgeAway(step: real, dim: nat, pts: seq<Vec>, i: nat, target: Vec, d: real)
    requires step > 0.0 && AllSized(pts, dim) && NearestChecked(step, dim, pts, target, d) && i < |pts| - 1
    ensures forall q: Vec | SampleOf(pts[i], pts[i + 1], step, q) :: Apart(q, target, d)
  {
    hide SampleOf, Apart, Dist, CheckedPose;
    forall q: Vec | SampleOf(pts[i], pts[i + 1], step, q) ensures Apart(q, target, d) {
      IsChecked(step, dim, pts, i, i + 1, q);
    }
  }

  lemma {:induction false} CertificateOf(p: Planner, q0: Vec, home: Vec, path: seq<Vec>, scale: real)
    requires p.Valid() && |q0| == |home| == p.dim && AllSized(path, p.dim) && p.Contained([q0] + path, q0, home)
    requires p.CertifiedPath([q0] + path, scale, 0.0) && p.margin(q0, scale) >= 0.0
    ensures FloorMin(p, q0, scale) == 0.0 && Certificate(p, q0, home, path, scale, 0.0)
  {
    hide p.CertifiedBut, p.Contained;
  }

  lemma {:induction false} BackLegStarts(legs: seq<Seg>, start: Vec, pts: seq<Vec>, v: real, dim: nat)
    requires legs != [] && LegsOk(legs, start, pts, v, dim)
    ensures |legs[0].from| == |legs[0].to| && ValueAt(legs[0], legs[0].t0) == start
  {
    hide Paced, ValueAt;
    assert LegOk(legs[0], Before(start, pts, 0), pts[0], v, dim);
    PacedStart(legs[0], Pace(v));
  }

  /** A nearest checked pose always exists, so the two statements above say exactly what is certain of a standing target. */
  lemma {:induction false} SomeNearest(step: real, dim: nat, pts: seq<Vec>, target: Vec) returns (d: real)
    requires step > 0.0 && AllSized(pts, dim) && |pts| >= 2 && |target| == dim
    ensures d >= 0.0 && NearestChecked(step, dim, pts, target, d)
    decreases |pts|
  {
    hide Dist, Apart, SampleOf, CheckedPose;
    var n := |pts| - 1;
    var e, near := NearestSampled(pts[n - 1], pts[n], step, target);
    IsChecked(step, dim, pts, n - 1, n, near);
    d := e;
    if n == 1 {
      forall r: Vec | CheckedPose(step, dim, pts, r) ensures Apart(r, target, d) {
        LastEdge(step, dim, pts, r);
        NoEdge(step, dim, pts[..n], r);
      }
    } else {
      var d' := SomeNearest(step, dim, pts[..n], target);
      var q: Vec :| CheckedPose(step, dim, pts[..n], q) && |q| == |target| && Dist(q, target) == d';
      OneMoreEdge(step, dim, pts, q);
      forall r: Vec | CheckedPose(step, dim, pts, r) ensures Apart(r, target, Min(d', e)) {
        LastEdge(step, dim, pts, r);
        ApartLess(r, target, d', e);
      }
      d := Min(d', e);
    }
  }

  lemma {:induction false} ApartLess(r: Vec, target: Vec, d: real, e: real)
    ensures Apart(r, target, d) || Apart(r, target, e) ==> Apart(r, target, Min(d, e))
  {
  }

  lemma {:induction false} NoEdge(step: real, dim: nat, pts: seq<Vec>, q: Vec)
    requires step > 0.0 && AllSized(pts, dim) && |pts| == 1
    ensures !CheckedPose(step, dim, pts, q)
  {
  }

  lemma {:induction false} IsChecked(step: real, dim: nat, pts: seq<Vec>, i: nat, j: nat, q: Vec)
    requires step > 0.0 && AllSized(pts, dim) && j == i + 1 && j < |pts| && SampleOf(pts[i], pts[j], step, q)
    ensures CheckedPose(step, dim, pts, q)
  {
    hide SampleOf;
  }

  lemma {:induction false} OneMoreEdge(step: real, dim: nat, pts: seq<Vec>, q: Vec)
    requires step > 0.0 && AllSized(pts, dim) && |pts| >= 2 && CheckedPose(step, dim, pts[..|pts| - 1], q)
    ensures CheckedPose(step, dim, pts, q)
  {
    hide SampleOf;
    var before := pts[..|pts| - 1];
    var i, j :| 0 <= i && j == i + 1 && j < |before| && SampleOf(before[i], before[j], step, q);
    hide CheckedPose;
    IsChecked(step, dim, pts, i, j, q);
  }

  /** A checked pose is one of the path without its last edge, or one of that edge. */
  lemma {:induction false} LastEdge(step: real, dim: nat, pts: seq<Vec>, q: Vec)
    requires step > 0.0 && AllSized(pts, dim) && |pts| >= 2 && CheckedPose(step, dim, pts, q)
    ensures var n := |pts| - 1;
            AllSized(pts[..n], dim) && (CheckedPose(step, dim, pts[..n], q) || SampleOf(pts[n - 1], pts[n], step, q))
  {
    hide SampleOf;
    var n := |pts| - 1;
    var i, j :| 0 <= i && j == i + 1 && j < |pts| && SampleOf(pts[i], pts[j], step, q);
    hide CheckedPose;
    if j < n {
      IsChecked(step, dim, pts[..n], i, j, q);
    }
  }

  lemma {:induction false} NearestSampled(a: Vec, b: Vec, step: real, target: Vec) returns (d: real, near: Vec)
    requires |a| == |b| == |target| && step > 0.0
    ensures SampleOf(a, b, step, near) && |near| == |target| && Dist(near, target) == d >= 0.0
    ensures forall q: Vec | SampleOf(a, b, step, q) :: Apart(q, target, d)
  {
    hide Lerp, Param, Dist, SampleCount;
    var n := SampleCount(a, b, step);
    var ds := seq(n, k requires 0 <= k < n => Dist(Lerp(a, b, Param(n, k)), target));
    d := Least(ds);
    var k :| 0 <= k < n && ds[k] == d;
    near := Lerp(a, b, Param(n, k));
    forall q: Vec | SampleOf(a, b, step, q) ensures Apart(q, target, d) {
      var j :| 0 <= j < n && q == Lerp(a, b, Param(n, j));
      assert ds[j] in ds;
    }
  }
}
