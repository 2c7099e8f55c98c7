// The home ramp: a walk along the planned waypoints at bounded speed, and how far its commands can be
// from the motion the planner checked.
module HomeRamp {
  import opened Options
  import opened JointSpace
  import opened EdgeCheck
  import opened Paths
  import opened Tiers
  import opened HomePlan
  import opened PlanClearance

  // --------------------------------------------------------------------- the pre-check

  /** _home_path_clear: the straight path at the full cushion, stopping at the first bad sample. */
  method HomePathClear(margin: Margin, q0: Vec, home: Vec, step: real) returns (ok: bool)
    requires |q0| == |home| && step > 0.0
    ensures ok <==> Certified(margin, q0, home, 1.0, step, 0.0)
  {
    hide Param, Lerp, SampleCount;
    var n := SampleCount(q0, home, step);
    var k := 0;
    while k < n
      invariant 0 <= k <= n
      invariant forall l | 0 <= l < k :: margin(Lerp(q0, home, Param(n, l)), 1.0) >= 0.0
    {
      if margin(Lerp(q0, home, Param(n, k)), 1.0) < 0.0 {
        return false;
      }
      k := k + 1;
    }
    ok := true;
  }

  /** A clear straight path is a plan like any other: one leg, certified at scale 1 and margin 0. */
  lemma ClearPathIsPlan(p: Planner, q0: Vec, home: Vec)
    requires p.Valid() && |q0| == |home| == p.dim && Certified(p.margin, q0, home, 1.0, p.step, 0.0)
    ensures Certificate(p, q0, home, [home], 1.0, FloorMin(p, q0, 1.0)) && FloorMin(p, q0, 1.0) == 0.0
  {
    hide Lerp, Certified;
    EndSamples(p.margin, q0, home, 1.0, p.step, 0.0);
    EndsContained(p, q0, home);
    assert p.CertifiedBut([q0] + [home], -1, 1.0, 0.0);
  }

  // -------------------------------------------------------------------------- the walk

  datatype Ramp = Ramp(wps: seq<Vec>, i: nat, cur: Vec, dwellT: Option<real>, doneT: Option<real>)

  /** A waypoint to walk to, and everything of one size. */
  ghost predicate RampOk(r: Ramp, dim: nat) {
    && r.i < |r.wps| && |r.cur| == dim
    && forall k | 0 <= k < |r.wps| :: |r.wps[k]| == dim
  }

  /** The command is still short of the waypoint by more than one step. */
  predicate Moving(r: Ramp, step: real)
    requires r.i < |r.wps| && |r.cur| == |r.wps[r.i]|
  {
    Dist(r.cur, r.wps[r.i]) > step
  }

  /** One tick of the walk: a step toward the waypoint, or onto it and then dwell, move on, or be done. */
  function Walk(r: Ramp, step: real, now: real, dwell: real): (r': Ramp)
    requires r.i < |r.wps| && |r.cur| == |r.wps[r.i]| && step >= 0.0
    ensures r'.wps == r.wps && r'.cur == Steer(step, r.cur, r.wps[r.i])
  {
    var cur := Steer(step, r.cur, r.wps[r.i]);
    if Moving(r, step) then r.(cur := cur)
    else if r.i < |r.wps| - 1 then
      if r.dwellT.None? then r.(cur := cur, dwellT := Some(now))
      else if now - r.dwellT.value >= dwell then r.(cur := cur, i := r.i + 1, dwellT := None)
      else r.(cur := cur)
    else r.(cur := cur, doneT := if r.doneT.None? then Some(now) else r.doneT)
  }

  ghost predicate OnSegment(a: Vec, b: Vec, q: Vec)
    requires |a| == |b|
  {
    exists s: real | 0.0 <= s <= 1.0 :: q == Lerp(a, b, s)
  }

  /** The command lies on the leg it is walking. */
  ghost predicate OnLeg(start: Vec, r: Ramp)
    requires RampOk(r, |start|)
  {
    OnSegment(Leg(start, r.wps, r.i).0, r.wps[r.i], r.cur)
  }

  lemma SegmentEnds(a: Vec, b: Vec)
    requires |a| == |b|
    ensures OnSegment(a, b, a) && OnSegment(a, b, b)
  {
    hide Lerp;
    LerpEnds(a, b);
  }

  lemma UnitBlend(s: real, t: real)
    requires 0.0 <= s <= 1.0 && 0.0 <= t <= 1.0
    ensures 0.0 <= s + t * (1.0 - s) <= 1.0
  {
    var e := Fraction(1.0 - s, t);
  }

  /** A step from a pose of a segment toward its end stays on the segment. */
  lemma SteerOnSegment(a: Vec, b: Vec, q: Vec, step: real)
    requires |a| == |b| == |q| && OnSegment(a, b, q) && step >= 0.0
    ensures OnSegment(a, b, Steer(step, q, b))
  {
    hide Lerp, Dist;
    if Dist(q, b) <= step {
      SegmentEnds(a, b);
    } else {
      var s: real :| 0.0 <= s <= 1.0 && q == Lerp(a, b, s);
      var t := step / Dist(q, b);
      QuotientBound(step, 1.0, Dist(q, b));
      QuotientBoundBelow(0.0, step, Dist(q, b));
      LerpLerp(a, b, s, t);
      UnitBlend(s, t);
    }
  }

  lemma SteerMoves(step: real, a: Vec, b: Vec)
    requires |a| == |b| && step >= 0.0
    ensures Dist(a, Steer(step, a, b)) <= step
    ensures Dist(a, b) > step ==> Dist(Steer(step, a, b), b) == Dist(a, b) - step
  {
    hide Lerp, Dist, ScaledBy;
    SteerGap(step, a, b);
    if Dist(a, b) > step {
      LerpEnds(a, b);
      LerpDist(a, b, 0.0, step / Dist(a, b));
      StepLength(step, Dist(a, b), Dist(a, Steer(step, a, b)));
    }
  }

  /**
   One tick: the command stays on its leg, moves by at most one step, and the walk turns to the next
   waypoint only from exactly the current one.
   */
  lemma WalkTick(start: Vec, r: Ramp, step: real, now: real, dwell: real)
    requires RampOk(r, |start|) && step >= 0.0 && OnLeg(start, r)
    ensures var r' := Walk(r, step, now, dwell);
            && RampOk(r', |start|) && OnLeg(start, r')
            && OnSegment(Leg(start, r.wps, r.i).0, r.wps[r.i], r'.cur)
            && Dist(r.cur, r'.cur) <= step
            && (r'.i == r.i || (r'.i == r.i + 1 && r'.cur == r.wps[r.i]))
  {
    hide Lerp, Dist, OnSegment;
    SteerOnSegment(Leg(start, r.wps, r.i).0, r.wps[r.i], r.cur, step);
    SteerMoves(step, r.cur, r.wps[r.i]);
    SteerGap(step, r.cur, r.wps[r.i]);
    if r.i + 1 < |r.wps| {
      SegmentEnds(r.wps[r.i], r.wps[r.i + 1]);
    }
  }

  datatype Tick = Tick(step: real, now: real)

  ghost predicate TicksOk(ts: seq<Tick>) {
    forall k | 0 <= k < |ts| :: ts[k].step >= 0.0
  }

  /** The walk after the first k ticks. */
  ghost function After(r: Ramp, ts: seq<Tick>, dwell: real, k: nat, dim: nat): (r': Ramp)
    requires RampOk(r, dim) && TicksOk(ts) && k <= |ts|
    ensures RampOk(r', dim) && r'.wps == r.wps
  {
    if k == 0 then r else Walk(After(r, ts, dwell, k - 1, dim), ts[k - 1].step, ts[k - 1].now, dwell)
  }

  /** Every command of a ramp lies on the polyline start -> w1 -> .. -> wk, on the leg being walked. */
  lemma {:induction false} AlwaysOnLeg(start: Vec, r: Ramp, ts: seq<Tick>, dwell: real, k: nat)
    requires RampOk(r, |start|) && OnLeg(start, r) && TicksOk(ts) && k <= |ts|
    ensures OnLeg(start, After(r, ts, dwell, k, |start|))
  {
    hide OnSegment, Dist;
    if k > 0 {
      AlwaysOnLeg(start, r, ts, dwell, k - 1);
      WalkTick(start, After(r, ts, dwell, k - 1, |start|), ts[k - 1].step, ts[k - 1].now, dwell);
    }
  }

  // ---------------------------------------------------------------------- bounded duration

  /** Length of the legs from waypoint k on. */
  function Rest(wps: seq<Vec>, k: nat, dim: nat): (d: real)
    requires forall l | 0 <= l < |wps| :: |wps[l]| == dim
    ensures d >= 0.0
    decreases |wps| - k
  {
    if k + 1 >= |wps| then 0.0 else Dist(wps[k], wps[k + 1]) + Rest(wps, k + 1, dim)
  }

  /** Joint distance still to walk. */
  function Remaining(r: Ramp, dim: nat): (d: real)
    requires RampOk(r, dim)
    ensures d >= 0.0
  {
    Dist(r.cur, r.wps[r.i]) + Rest(r.wps, r.i, dim)
  }

  /** A moving tick shortens the way by exactly one step; no tick lengthens it. */
  lemma WalkShortens(r: Ramp, step: real, now: real, dwell: real, dim: nat)
    requires RampOk(r, dim) && step >= 0.0
    ensures RampOk(Walk(r, step, now, dwell), dim)
    ensures Remaining(Walk(r, step, now, dwell), dim) <= Remaining(r, dim) - if Moving(r, step) then step else 0.0
  {
    hide Dist;
    SteerMoves(step, r.cur, r.wps[r.i]);
    SteerGap(step, r.cur, r.wps[r.i]);
    DistZero(r.wps[r.i], r.wps[r.i]);
  }

  /** How many of the first k ticks were moving ones. */
  ghost function MovingTicks(r: Ramp, ts: seq<Tick>, dwell: real, k: nat, dim: nat): nat
    requires RampOk(r, dim) && TicksOk(ts) && k <= |ts|
  {
    if k == 0 then 0
    else MovingTicks(r, ts, dwell, k - 1, dim) + if Moving(After(r, ts, dwell, k - 1, dim), ts[k - 1].step) then 1 else 0
  }

  /** Distance that n steps of smin cover. */
  ghost function Covered(n: nat, smin: real): real {
    if n == 0 then 0.0 else Covered(n - 1, smin) + smin
  }

  lemma {:induction false} CoveredIsProduct(n: nat, smin: real)
    ensures Covered(n, smin) == n as real * smin
  {
    if n > 0 {
      CoveredIsProduct(n - 1, smin);
      OneMore(n - 1, smin);
    }
  }

  /** With steps of at least smin, a ramp of length D has at most D / smin moving ticks, whatever the others do. */
  lemma {:induction false} MovingTicksBounded(r: Ramp, ts: seq<Tick>, dwell: real, k: nat, dim: nat, smin: real)
    requires RampOk(r, dim) && TicksOk(ts) && k <= |ts|
    requires 0.0 < smin && forall l | 0 <= l < |ts| :: ts[l].step >= smin
    ensures Covered(MovingTicks(r, ts, dwell, k, dim), smin) + Remaining(After(r, ts, dwell, k, dim), dim) <= Remaining(r, dim)
  {
    hide RampOk, Remaining, Walk, Moving, Covered, After, MovingTicks;
    RunUnfolds(r, ts, dwell, k, dim);
    if k == 0 {
      assert Covered(0, smin) == 0.0 by { CoveredIsProduct(0, smin); }
    } else {
      MovingTicksBounded(r, ts, dwell, k - 1, dim, smin);
      TickBudget(After(r, ts, dwell, k - 1, dim), ts[k - 1], dwell, dim, smin,
        MovingTicks(r, ts, dwell, k - 1, dim), Remaining(r, dim));
    }
  }

  lemma RunUnfolds(r: Ramp, ts: seq<Tick>, dwell: real, k: nat, dim: nat)
    requires RampOk(r, dim) && TicksOk(ts) && k <= |ts|
    ensures k == 0 ==> After(r, ts, dwell, k, dim) == r && MovingTicks(r, ts, dwell, k, dim) == 0
    ensures k > 0 ==>
              var s, t := After(r, ts, dwell, k - 1, dim), ts[k - 1];
              && After(r, ts, dwell, k, dim) == Walk(s, t.step, t.now, dwell)
              && MovingTicks(r, ts, dwell, k, dim) ==
                 if Moving(s, t.step) then MovingTicks(r, ts, dwell, k - 1, dim) + 1 else MovingTicks(r, ts, dwell, k - 1, dim)
  {
    hide Walk, Moving;
  }

  lemma TickBudget(r: Ramp, t: Tick, dwell: real, dim: nat, smin: real, n: nat, total: real)
    requires RampOk(r, dim) && 0.0 < smin <= t.step
    requires Covered(n, smin) + Remaining(r, dim) <= total
    ensures RampOk(Walk(r, t.step, t.now, dwell), dim)
    ensures Covered(if Moving(r, t.step) then n + 1 else n, smin) + Remaining(Walk(r, t.step, t.now, dwell), dim) <= total
  {
    hide Remaining, Walk, Moving;
    WalkShortens(r, t.step, t.now, dwell, dim);
  }

  // ------------------------------------------------------------- bounded duration, all ticks

  /** On the last waypoint, and there for longer than the grace. */
  ghost predicate Overdue(r: Ramp, t: Tick, grace: real, dim: nat)
    requires RampOk(r, dim)
  {
    !Moving(r, t.step) && r.i == |r.wps| - 1 && r.doneT.Some? && t.now - r.doneT.value > grace
  }

  /** At time t: a dwell is one on its waypoint and not yet due, a settling is on the last and within the grace. */
  ghost predicate Timed(r: Ramp, t: real, dwell: real, grace: real, dim: nat)
    requires RampOk(r, dim)
  {
    && (r.dwellT.Some? ==> r.cur == r.wps[r.i] && r.i < |r.wps| - 1 && 0.0 <= t - r.dwellT.value <= dwell)
    && (r.doneT.Some? ==> r.cur == r.wps[r.i] && r.i == |r.wps| - 1 && 0.0 <= t - r.doneT.value <= grace)
  }

  /**
   Time the ticks that do not move can still take, with ticks at least d apart: at each waypoint the dwell, a tick
   to notice the arrival and one to turn; at the last one the grace in place of the dwell.
   */
  ghost function TimeLeft(r: Ramp, t: real, d: real, dwell: real, grace: real, dim: nat): real
    requires RampOk(r, dim)
  {
    Covered(|r.wps| - 1 - r.i, dwell + 2.0 * d) + grace + 2.0 * d
    - (if r.dwellT.Some? then d + (t - r.dwellT.value) else 0.0) - (if r.doneT.Some? then d + (t - r.doneT.value) else 0.0)
  }

  /** A tick that does not move takes at least d of that time. */
  lemma WaitTick(r: Ramp, t: real, tick: Tick, d: real, dwell: real, grace: real, dim: nat)
    requires RampOk(r, dim) && Timed(r, t, dwell, grace, dim) && d > 0.0 && dwell >= 0.0 && grace >= 0.0
    requires tick.step >= 0.0 && tick.now >= t + d && !Overdue(r, tick, grace, dim)
    ensures var r' := Walk(r, tick.step, tick.now, dwell);
            && RampOk(r', dim) && Timed(r', tick.now, dwell, grace, dim)
            && TimeLeft(r', tick.now, d, dwell, grace, dim) <=
               TimeLeft(r, t, d, dwell, grace, dim) - if Moving(r, tick.step) then 0.0 else d
  {
    hide Dist, Covered;
    DistZero(r.cur, r.wps[r.i]);
    SteerGap(tick.step, r.cur, r.wps[r.i]);
    if r.i < |r.wps| - 1 {
      CoveredNext(|r.wps| - 2 - r.i, dwell + 2.0 * d);
    }
  }

  lemma CoveredNext(n: nat, x: real)
    ensures Covered(n + 1, x) == Covered(n, x) + x
  {
  }

  lemma {:induction false} CoveredNonNegative(n: nat, x: real)
    requires x >= 0.0
    ensures Covered(n, x) >= 0.0
  {
    if n > 0 {
      CoveredNonNegative(n - 1, x);
    }
  }

  lemma TimeLeftNonNegative(r: Ramp, t: real, d: real, dwell: real, grace: real, dim: nat)
    requires RampOk(r, dim) && Timed(r, t, dwell, grace, dim) && d > 0.0 && dwell >= 0.0 && grace >= 0.0
    ensures TimeLeft(r, t, d, dwell, grace, dim) >= 0.0
  {
    var n := |r.wps| - 1 - r.i;
    CoveredNonNegative(n, dwell + 2.0 * d);
    if n > 0 {
      CoveredNonNegative(n - 1, dwell + 2.0 * d);
      CoveredNext(n - 1, dwell + 2.0 * d);
    }
  }

  /** Ticks at least d apart, the first no sooner than d after t. */
  ghost predicate Spaced(ts: seq<Tick>, t: real, d: real) {
    forall k | 0 <= k < |ts| :: ts[k].now >= Since(ts, t, k) + d
  }

  function Since(ts: seq<Tick>, t: real, k: nat): real
    requires k <= |ts|
  {
    if k == 0 then t else ts[k - 1].now
  }

  ghost predicate NeverOverdue(r: Ramp, ts: seq<Tick>, dwell: real, grace: real, dim: nat)
    requires RampOk(r, dim) && TicksOk(ts)
  {
    forall k | 0 <= k < |ts| :: !Overdue(After(r, ts, dwell, k, dim), ts[k], grace, dim)
  }

  lemma {:induction false} AfterPrefix(r: Ramp, ts: seq<Tick>, t: Tick, dwell: real, k: nat, dim: nat)
    requires RampOk(r, dim) && TicksOk(ts) && TicksOk(ts + [t]) && k <= |ts|
    ensures After(r, ts + [t], dwell, k, dim) == After(r, ts, dwell, k, dim)
  {
    hide RampOk, Walk;
    if k > 0 {
      AfterPrefix(r, ts, t, dwell, k - 1, dim);
    }
  }

  lemma OneMoreTick(r: Ramp, ts: seq<Tick>, t: Tick, dwell: real, grace: real, dim: nat)
    requires RampOk(r, dim) && TicksOk(ts) && NeverOverdue(r, ts, dwell, grace, dim) && t.step >= 0.0
    requires !Overdue(After(r, ts, dwell, |ts|, dim), t, grace, dim)
    ensures TicksOk(ts + [t]) && NeverOverdue(r, ts + [t], dwell, grace, dim)
    ensures After(r, ts + [t], dwell, |ts| + 1, dim) == Walk(After(r, ts, dwell, |ts|, dim), t.step, t.now, dwell)
  {
    hide RampOk, Walk, Overdue, After, NeverOverdue, TicksOk;
    MoreTicksOk(ts, t);
    AfterPrefix(r, ts, t, dwell, |ts|, dim);
    LastTick(r, ts + [t], dwell, dim);
    forall k | 0 <= k < |ts| ensures !Overdue(After(r, ts + [t], dwell, k, dim), (ts + [t])[k], grace, dim) {
      AfterPrefix(r, ts, t, dwell, k, dim);
      NotOverdueAt(r, ts, dwell, grace, dim, k);
    }
    AllNotOverdue(r, ts + [t], dwell, grace, dim);
  }

  lemma MoreTicksOk(ts: seq<Tick>, t: Tick)
    requires TicksOk(ts) && t.step >= 0.0
    ensures TicksOk(ts + [t])
  {
  }

  lemma LastTick(r: Ramp, ts: seq<Tick>, dwell: real, dim: nat)
    requires RampOk(r, dim) && TicksOk(ts) && ts != []
    ensures var n := |ts| - 1; After(r, ts, dwell, n + 1, dim) == Walk(After(r, ts, dwell, n, dim), ts[n].step, ts[n].now, dwell)
  {
    hide Walk;
  }

  lemma NotOverdueAt(r: Ramp, ts: seq<Tick>, dwell: real, grace: real, dim: nat, k: nat)
    requires RampOk(r, dim) && TicksOk(ts) && NeverOverdue(r, ts, dwell, grace, dim) && k < |ts|
    ensures !Overdue(After(r, ts, dwell, k, dim), ts[k], grace, dim)
  {
    hide Overdue;
  }

  lemma AllNotOverdue(r: Ramp, ts: seq<Tick>, dwell: real, grace: real, dim: nat)
    requires RampOk(r, dim) && TicksOk(ts) && forall k | 0 <= k < |ts| :: !Overdue(After(r, ts, dwell, k, dim), ts[k], grace, dim)
    ensures NeverOverdue(r, ts, dwell, grace, dim)
  {
    hide Overdue;
  }

  /** Every tick is a moving one or takes time: with the moving ticks bounded by the way, all ticks are bounded. */
  lemma {:induction false} WaitingBounded(
    r: Ramp, t: real, ts: seq<Tick>, k: nat, d: real, dwell: real, grace: real, dim: nat)
    requires RampOk(r, dim) && TicksOk(ts) && k <= |ts| && Timed(r, t, dwell, grace, dim)
    requires d > 0.0 && dwell >= 0.0 && grace >= 0.0 && Spaced(ts, t, d) && NeverOverdue(r, ts, dwell, grace, dim)
    ensures MovingTicks(r, ts, dwell, k, dim) <= k
    ensures var r' := After(r, ts, dwell, k, dim);
            && Timed(r', Since(ts, t, k), dwell, grace, dim)
            && Covered(k - MovingTicks(r, ts, dwell, k, dim), d) + TimeLeft(r', Since(ts, t, k), d, dwell, grace, dim)
               <= TimeLeft(r, t, d, dwell, grace, dim)
  {
    hide RampOk, Walk, Moving, Covered, After, MovingTicks, Timed, TimeLeft, Overdue;
    RunUnfolds(r, ts, dwell, k, dim);
    if k == 0 {
      assert Covered(0, d) == 0.0 by { CoveredIsProduct(0, d); }
    } else {
      WaitingBounded(r, t, ts, k - 1, d, dwell, grace, dim);
      var s := After(r, ts, dwell, k - 1, dim);
      assert !Overdue(s, ts[k - 1], grace, dim);
      WaitTick(s, Since(ts, t, k - 1), ts[k - 1], d, dwell, grace, dim);
      CoveredNext(k - 1 - MovingTicks(r, ts, dwell, k - 1, dim), d);
    }
  }

  /** The time of the waits at the waypoints still to come: a dwell and two ticks each, the grace and two at the last. */
  function WaitTime(stops: nat, d: real, dwell: real, grace: real): real {
    stops as real * (dwell + 2.0 * d) + grace + 2.0 * d
  }

  /** The ticks of the whole ramp: its way in steps of smin, its waits in ticks d apart. */
  function TickBound(r: Ramp, smin: real, d: real, dwell: real, grace: real, dim: nat): real
    requires RampOk(r, dim) && smin > 0.0 && d > 0.0
  {
    Remaining(r, dim) / smin + WaitTime(|r.wps| - 1 - r.i, d, dwell, grace) / d
  }

  /**
   A ramp that is never overdue has had at most D / smin moving ticks, D being the way, and besides them as many
   as fit into a dwell and two ticks at each waypoint but the last and the grace and two ticks there: however the
   robot follows, the ramp ends.
   */
  lemma RampTicksBounded(r: Ramp, t: real, ts: seq<Tick>, d: real, smin: real, dwell: real, grace: real, dim: nat)
    requires RampOk(r, dim) && TicksOk(ts) && r.dwellT.None? && r.doneT.None?
    requires smin > 0.0 && forall l | 0 <= l < |ts| :: ts[l].step >= smin
    requires d > 0.0 && dwell >= 0.0 && grace >= 0.0 && Spaced(ts, t, d) && NeverOverdue(r, ts, dwell, grace, dim)
    ensures |ts| as real <= TickBound(r, smin, d, dwell, grace, dim)
  {
    hide Dist, Rest, MovingTicks, After, NeverOverdue, Spaced, Covered;
    var k := |ts|;
    MovingTicksBounded(r, ts, dwell, k, dim, smin);
    WaitingBounded(r, t, ts, k, d, dwell, grace, dim);
    var moving := MovingTicks(r, ts, dwell, k, dim);
    var time := TimeLeft(r, t, d, dwell, grace, dim);
    TimeLeftNonNegative(After(r, ts, dwell, k, dim), Since(ts, t, k), d, dwell, grace, dim);
    hide TimeLeft, Timed, RampOk, WaitTime;
    CoveredCount(moving, smin, Remaining(r, dim));
    CoveredCount(k - moving, d, time);
    StartTime(r, t, d, dwell, grace, dim);
    hide Remaining;
    assert k as real == moving as real + (k - moving) as real;
  }

  lemma StartTime(r: Ramp, t: real, d: real, dwell: real, grace: real, dim: nat)
    requires RampOk(r, dim) && r.dwellT.None? && r.doneT.None?
    ensures TimeLeft(r, t, d, dwell, grace, dim) == WaitTime(|r.wps| - 1 - r.i, d, dwell, grace)
  {
    CoveredIsProduct(|r.wps| - 1 - r.i, dwell + 2.0 * d);
  }

  lemma CoveredCount(n: nat, x: real, most: real)
    requires x > 0.0 && Covered(n, x) <= most
    ensures n as real <= most / x
  {
    CoveredIsProduct(n, x);
    QuotientBoundBelow(n as real, most, x);
  }

  // ------------------------------------------------- how far the commands are from the plan

  /** Where on its leg a command is, and the pose at the same fraction of the leg that was checked. */
  lemma LerpMoveStart(a: Vec, b: Vec, w: Vec, s: real)
    requires |a| == |b| == |w| && 0.0 <= s <= 1.0
    ensures ScaledBy(1.0 - s, Dist(a, b), Dist(Lerp(a, w, s), Lerp(b, w, s)))
  {
    hide Lerp, ScaledBy, Dist;
    LerpReverse(a, w, s);
    LerpReverse(b, w, s);
    LerpMoveEnd(w, a, b, 1.0 - s);
  }

  /** From the last command instead of the checked pose: off the checked leg by (1 - s) of the initial offset. */
  lemma FirstLegOffset(q0: Vec, start: Vec, w: Vec, s: real, lead: real)
    requires |q0| == |start| == |w| && 0.0 <= s <= 1.0 && Dist(start, q0) <= lead
    ensures ScaledBy(1.0 - s, Dist(start, q0), Dist(Lerp(start, w, s), Lerp(q0, w, s)))
    ensures Dist(Lerp(start, w, s), Lerp(q0, w, s)) <= lead
  {
    hide Lerp, Dist, ScaledBy;
    LerpMoveStart(start, q0, w, s);
    PartOf(1.0 - s, Dist(start, q0), Dist(Lerp(start, w, s), Lerp(q0, w, s)));
  }

  lemma PartOf(k: real, x: real, y: real)
    requires 0.0 <= k <= 1.0 && 0.0 <= x && ScaledBy(k, x, y)
    ensures y <= x
  {
    var e := Fraction(x, k);
  }

  /**
   Every command of a ramp along a plan: its margin is at least the plan's floor, less what a slope of L
   allows over the slack of its leg, and on the first leg over the distance `lead` between the pose the
   plan was checked from and the command the ramp starts from.
   */
  lemma CommandClear(
    p: Planner, q0: Vec, home: Vec, start: Vec, r: Ramp, scale: real, L: real, lead: real)
    requires p.Valid() && |q0| == |home| == |start| == p.dim && lead >= 0.0
    requires Certificate(p, q0, home, r.wps, scale, FloorMin(p, q0, scale)) && Lipschitz(p.margin, scale, p.dim, L)
    requires RampOk(r, p.dim) && OnLeg(start, r) && Dist(start, q0) <= lead
    ensures p.margin(r.cur, scale) >=
            Drop(FloorMin(p, q0, scale), L, Slack(p, Leg(q0, r.wps, r.i).0, r.wps[r.i]) + if r.i == 0 then lead else 0.0)
  {
    hide Lerp, Dist, Drop, Slack, Lipschitz, Certificate, FloorMin, ScaledBy, p.Valid;
    var f, t := FloorMin(p, q0, scale), Slack(p, Leg(q0, r.wps, r.i).0, r.wps[r.i]);
    var s: real :| 0.0 <= s <= 1.0 && r.cur == Lerp(Leg(start, r.wps, r.i).0, r.wps[r.i], s);
    PlanClear(p, q0, home, r.wps, scale, L, r.i, s);
    if r.i == 0 {
      FirstLegOffset(q0, start, r.wps[0], s, lead);
      MarginFurther(p.margin, scale, r.cur, Lerp(q0, r.wps[0], s), L, t, lead, f);
    }
  }
}
