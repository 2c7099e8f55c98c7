// What the shaper's limits do when they bind: each takes the nearest value it admits, a standing target is
// overshot by a bounded distance, and a feed-forward equal to the target's velocity leaves no lag.
module ShaperLimits {
  import opened Options
  import opened JointSpace
  import opened CommandShaper
  import opened ShaperRuns

  // -------------------------------------------------------------------- one joint, one step

  /** x is the value of [lo, hi] nearest to y. */
  ghost predicate NearestWithin(x: real, y: real, lo: real, hi: real) {
    lo <= x <= hi && forall z: real | lo <= z <= hi :: Apart(x, y) <= Apart(z, y)
  }

  function Apart(x: real, y: real): real {
    Abs(x - y)
  }

  lemma ClipIsNearest(y: real, lo: real, hi: real)
    requires lo <= hi
    ensures NearestWithin(Clip(y, lo, hi), y, lo, hi)
  {
  }

  lemma SlewIsNearest(v: real, d: real, aMax: real, dt: real, dv: real)
    requires dv == aMax * dt && dv >= 0.0
    ensures NearestWithin(Slew(v, d, aMax, dt), d, v - dv, v + dv)
  {
  }

  /** The feed-forward after a sample: none without one, the whole of it without a time constant or after one, else its share. */
  ghost predicate FedForward(tau: real, dt: real, ff: real, vff: Option<real>, ff': real) {
    match vff
    case None => ff' == 0.0
    case Some(x) => if tau <= 0.0 || dt >= tau then ff' == x else tau * (ff' - ff) == dt * (x - ff)
  }

  lemma ShareOf(tau: real, dt: real, ff: real, x: real)
    requires 0.0 < dt < tau
    ensures tau * (Min(1.0, dt / tau) * (x - ff)) == dt * (x - ff)
  {
    var s := dt / tau;
    assert s * tau == dt;
    QuotientBound(dt, 1.0, tau);
    assert tau * (s * (x - ff)) == (s * tau) * (x - ff);
  }

  lemma FeedForwardSays(p: Params, s: Track, vff: Option<Vec>, dt: real, i: nat)
    requires i < |s.ff| && (vff.Some? ==> |vff.value| == |s.ff|) && dt > 0.0
    ensures FedForward(p.ffTau, dt, s.ff[i], if vff.Some? then Some(vff.value[i]) else None, FeedForward(p, s.ff, vff, dt)[i])
  {
    if vff.Some? && p.ffTau > 0.0 {
      if dt < p.ffTau {
        ShareOf(p.ffTau, dt, s.ff[i], vff.value[i]);
      } else {
        QuotientBoundBelow(1.0, dt, p.ffTau);
      }
    }
  }

  /**
   One limited step of one joint in plain terms. The speed kp * error is cut to the nearest one from which the
   acceleration limit can still stop at the target, the feed-forward is added, the sum cut to the nearest one
   within the speed limit, and the velocity moved as near to that as the acceleration limit lets it.
   */
  lemma LimitedSays(p: Params, s: Track, tgt: Vec, dt: real, vff: Option<Vec>, i: nat, dv: real)
    returns (w: real, c: real, d: real)
    requires p.Valid() && Shaped(s, |tgt|) && (vff.Some? ==> |vff.value| == |tgt|) && dt > 0.0 && i < |tgt|
    requires dv == p.aMax * dt
    ensures var s' := Limited(p, s, tgt, dt, vff);
            && w >= 0.0 && w * w == 2.0 * p.aMax * Abs(tgt[i] - s.q[i])
            && NearestWithin(c, Times(p.kp, tgt[i] - s.q[i]), -w, w)
            && NearestWithin(d, s'.ff[i] + c, -p.vMax, p.vMax)
            && NearestWithin(s'.v[i], d, s.v[i] - dv, s.v[i] + dv)
            && s'.q[i] == s.q[i] + s'.v[i] * dt
            && FedForward(p.ffTau, dt, s.ff[i], if vff.Some? then Some(vff.value[i]) else None, s'.ff[i])
  {
    hide p.Valid, Limited, FedForward, NearestWithin, FeedForward, NextVel, DesiredVel, NextPos, Times;
    var s' := Limited(p, s, tgt, dt, vff);
    FeedForwardSays(p, s, vff, dt, i);
    LimitedAny(p, s, tgt, dt, vff, i);
    w, c, d := JointSays(p, tgt[i] - s.q[i], s.v[i], s'.ff[i], dt, dv, s'.v[i]);
    NextPosIs(s.q[i], s'.v[i], dt);
  }

  lemma LimitedAny(p: Params, s: Track, tgt: Vec, dt: real, vff: Option<Vec>, i: nat)
    requires Shaped(s, |tgt|) && (vff.Some? ==> |vff.value| == |tgt|) && i < |tgt|
    ensures var s' := Limited(p, s, tgt, dt, vff);
            && s'.v[i] == NextVel(p, s.v[i], DesiredVel(p, tgt[i] - s.q[i], s'.ff[i]), dt)
            && s'.q[i] == NextPos(s.q[i], s'.v[i], dt) && s'.ff == FeedForward(p, s.ff, vff, dt)
  {
    hide NextVel, DesiredVel, NextPos, Limited, FeedForward;
  }

  lemma NextPosIs(q: real, v: real, dt: real)
    ensures NextPos(q, v, dt) == q + v * dt
  {
  }

  lemma JointSays(p: Params, err: real, v: real, ff: real, dt: real, dv: real, v': real) returns (w: real, c: real, d: real)
    requires p.Valid() && dt > 0.0 && dv == p.aMax * dt && v' == NextVel(p, v, DesiredVel(p, err, ff), dt)
    ensures w >= 0.0 && w * w == 2.0 * p.aMax * Abs(err)
    ensures NearestWithin(c, Times(p.kp, err), -w, w) && NearestWithin(d, ff + c, -p.vMax, p.vMax) && NearestWithin(v', d, v - dv, v + dv)
  {
    assert p.vMax >= 0.0;
    assert dv >= 0.0 by { NonNegative(p.aMax, dt); }
    hide p.Valid, Brake, NearestWithin, Clip, Slew, Times, DesiredVel, Toward;
    RootIs(p, err);
    w := Brake(p, err);
    c := Clip(Times(p.kp, err), -w, w);
    d := Clip(ff + c, -p.vMax, p.vMax);
    DesiredIs(p, err, ff, w, c, d);
    ClipIsNearest(Times(p.kp, err), -w, w);
    ClipIsNearest(ff + c, -p.vMax, p.vMax);
    SlewIsNearest(v, d, p.aMax, dt, dv);
  }

  lemma DesiredIs(p: Params, err: real, ff: real, w: real, c: real, d: real)
    requires w == Brake(p, err) && c == Clip(Times(p.kp, err), -w, w) && d == Clip(ff + c, -p.vMax, p.vMax)
    ensures DesiredVel(p, err, ff) == d
  {
    hide Clip, Brake;
  }

  ghost predicate AtZero(v: Vec, n: nat) {
    |v| == n && forall i | 0 <= i < n :: v[i] == 0.0
  }

  /** Some joint is further from its target than the shaper may lag. */
  ghost predicate TooFar(p: Params, q: Vec, tgt: Vec) {
    |q| == |tgt| && exists i | 0 <= i < |q| :: q[i] - tgt[i] > p.lead || tgt[i] - q[i] > p.lead
  }

  /**
   One pass in plain terms. Without a target nothing happens. With a stale one nothing is published, the pose is kept
   and the velocities are forgotten. With a live one, it is published as it is, from rest, if nothing was before, the
   number of joints changed or a joint is too far off; else one limited step toward it is.
   */
  lemma PassSays(p: Params, s: Option<Track>, f: Feed)
    requires (s.Some? ==> Shaped(s.value, |s.value.q|)) && FeedOk(f) && p.lead >= 0.0
    ensures var (s', out) := Pass(p, s, f);
            if f.target.None? then s' == s && out == None
            else if !f.live then
              && out == None && (s'.Some? <==> s.Some?)
              && (s.Some? ==> s'.value.q == s.value.q && AtZero(s'.value.v, |s.value.q|) && AtZero(s'.value.ff, |s.value.q|))
            else
              var tgt := f.target.value;
              && s'.Some? && out == Some(s'.value.q)
              && if s.None? || |s.value.q| != |tgt| || TooFar(p, s.value.q, tgt)
                 then s'.value.q == tgt && AtZero(s'.value.v, |tgt|) && AtZero(s'.value.ff, |tgt|)
                 else s'.value == Limited(p, s.value, tgt, f.dt, f.vff)
  {
    hide Limited, Dist;
    if f.target.Some? && s.Some? && |s.value.q| == |f.target.value| {
      FurtherThan(s.value.q, f.target.value, p.lead);
    }
  }

  lemma FurtherThan(q: Vec, w: Vec, r: real)
    requires |q| == |w| && r >= 0.0
    ensures Dist(q, w) > r <==> exists i | 0 <= i < |q| :: q[i] - w[i] > r || w[i] - q[i] > r
  {
  }

  /** v is no faster than the acceleration limit can stop within e ahead of it. */
  ghost predicate CanStop(aMax: real, e: real, v: real) {
    v * v <= 2.0 * aMax * e
  }

  lemma BelowRoot(aMax: real, e: real, w: real, v: real)
    requires 0.0 <= v <= w && w * w == 2.0 * aMax * e
    ensures CanStop(aMax, e, v)
  {
    ScaleMonotone(v, v, w);
    ScaleMonotone(w, v, w);
    assert v * w == w * v;
  }

  lemma OneSideStep(p: Params, err: real, v: real, dt: real, dv: real)
    requires p.Valid() && dt > 0.0 && dv == p.aMax * dt
    ensures var v' := NextVel(p, v, DesiredVel(p, err, 0.0), dt);
            && (v' > 0.0 ==> (err > 0.0 && CanStop(p.aMax, err, v')) || v' == v - dv)
            && (v' < 0.0 ==> (err < 0.0 && CanStop(p.aMax, -err, -v')) || v' == v + dv)
  {
    RootIs(p, err);
    var w, d := Brake(p, err), DesiredVel(p, err, 0.0);
    Asks(p.kp, err, w, p.vMax, d);
    NonNegative(p.aMax, dt);
    var v' := NextVel(p, v, d, dt);
    assert v' == d || (v' == v + dv && v' <= d) || (v' == v - dv && v' >= d);
    hide p.Valid, Brake, DesiredVel, NextVel, CanStop;
    if v' > 0.0 && v' != v - dv {
      BelowRoot(p.aMax, err, w, v');
    }
    if v' < 0.0 && v' != v + dv {
      BelowRoot(p.aMax, -err, w, -v');
    }
  }

  /** The velocity asked for without feed-forward points to the target and is at most the brake's. */
  lemma Asks(kp: real, err: real, w: real, vMax: real, d: real)
    requires kp >= 0.0 && w >= 0.0 && vMax >= 0.0 && d == Toward(kp, err, w, 0.0, vMax)
    ensures -w <= d <= w && (d > 0.0 ==> err > 0.0) && (d < 0.0 ==> err < 0.0)
  {
    if err >= 0.0 {
      NonNegative(kp, err);
    } else {
      NonNegative(kp, -err);
      assert kp * (-err) == -(kp * err);
    }
  }

  /**
   Without feed-forward a joint ends every step at a speed from which it can still stop at the target, as the error
   was before the step, or it is braking as hard as the acceleration limit allows.
   */
  lemma StopsOrBrakes(p: Params, s: Track, tgt: Vec, dt: real, i: nat, dv: real)
    requires p.Valid() && Shaped(s, |tgt|) && dt > 0.0 && i < |tgt| && dv == p.aMax * dt
    ensures var v' := Limited(p, s, tgt, dt, None).v[i];
            v' * v' <= 2.0 * p.aMax * Abs(tgt[i] - s.q[i]) || Abs(v') == Abs(s.v[i]) - dv
  {
    hide p.Valid, Limited, NextVel, DesiredVel, NextPos;
    LimitedAt(p, s, tgt, dt, i);
    JointStops(p, tgt[i] - s.q[i], s.v[i], dt, dv, Limited(p, s, tgt, dt, None).v[i]);
  }

  lemma JointStops(p: Params, err: real, v: real, dt: real, dv: real, v': real)
    requires p.Valid() && dt > 0.0 && dv == p.aMax * dt && v' == NextVel(p, v, DesiredVel(p, err, 0.0), dt)
    ensures v' * v' <= 2.0 * p.aMax * Abs(err) || Abs(v') == Abs(v) - dv
  {
    NonNegative(p.aMax, dt);
    NonNegative(p.aMax, Abs(err));
    OneSideStep(p, err, v, dt, dv);
    hide p.Valid, NextVel, DesiredVel;
    assert (-v') * (-v') == v' * v';
  }

  // ---------------------------------------------------------------- overshoot, over whole runs

  /** The most a standing target is overshot: half a pass at full speed, and an eighth of what one pass accelerates. */
  function Overshoot(p: Params, dt: real): real {
    0.5 * (p.vMax * dt) + 0.125 * (p.aMax * dt * dt)
  }

  /** dv is what a pass can change the velocity by, b the overshoot. */
  ghost predicate Allows(aMax: real, vMax: real, dt: real, dv: real, b: real) {
    aMax >= 0.0 && vMax >= 0.0 && dt > 0.0 && dv == aMax * dt && b == 0.5 * (vMax * dt) + 0.125 * (dv * dt)
  }

  /** What is left after moving at v for dt. */
  ghost predicate Travelled(e: real, v: real, dt: real, e': real) {
    e' == e - v * dt
  }

  lemma Allowances(p: Params, dt: real) returns (dv: real, b: real)
    requires p.Valid() && dt > 0.0
    ensures Allows(p.aMax, p.vMax, dt, dv, b) && b == Overshoot(p, dt)
  {
    dv, b := p.aMax * dt, Overshoot(p, dt);
  }

  /**
   e is what is left to the target, v the speed toward it: not past it by more than the overshoot, and slow enough
   to stop there, but for what one pass at full speed covers.
   */
  ghost predicate Stoppable(aMax: real, dv: real, vMax: real, b: real, e: real, v: real) {
    e >= -b && (v > 0.0 ==> v * v - dv * v - dv * vMax <= 2.0 * aMax * e)
  }

  /** v' >= 0 kept the budget: then the target is not passed by more than b. */
  lemma NotPast(aMax: real, dt: real, dv: real, vMax: real, b: real, e: real, v: real)
    requires Allows(aMax, vMax, dt, dv, b) && v > 0.0 && v * v - dv * v - dv * vMax <= 2.0 * aMax * e
    ensures e >= -b
  {
    var vv, x, y, z := v * v, dv * v, dv * vMax, aMax * e;
    assert vv - x - y <= 2.0 * z;
    var h := v - 0.5 * dv;
    assert h * h >= 0.0 by { Square(h); }
    assert h * h == v * v - dv * v + 0.25 * (dv * dv);
    assert 2.0 * aMax * e >= -0.25 * (dv * dv) - dv * vMax;
    assert aMax * b == 0.5 * (dv * vMax) + 0.125 * (dv * dv) by { Budget(aMax, dt, dv, vMax, b); }
    assert 2.0 * (aMax * e) >= -2.0 * (aMax * b);
    if aMax > 0.0 {
      assert aMax * (-b) == -(aMax * b);
      CancelFactor(aMax, -b, e);
    } else {
      NoSpeedLeft(aMax, dv, v, vMax, e, vv, x, y, z);
      assert false;
    }
  }

  lemma CancelFactor(k: real, x: real, y: real)
    requires k > 0.0 && k * x <= k * y
    ensures x <= y
  {
    if y < x {
      ScaleStrictly(k, y, x);
    }
  }

  /** Without acceleration the budget leaves no speed. */
  lemma NoSpeedLeft(aMax: real, dv: real, v: real, vMax: real, e: real, vv: real, x: real, y: real, z: real)
    requires v > 0.0 && aMax == 0.0 && dv == 0.0 && vv == v * v && x == dv * v && y == dv * vMax && z == aMax * e
    ensures vv > 0.0 && x == 0.0 && y == 0.0 && z == 0.0
  {
    PositiveProduct(v, v, vv);
    ZeroTimes(dv, v, x);
    ZeroTimes(dv, vMax, y);
    ZeroTimes(aMax, e, z);
  }

  lemma ZeroTimes(z: real, x: real, y: real)
    requires z == 0.0 && y == z * x
    ensures y == 0.0
  {
  }

  lemma Square(h: real)
    ensures h * h >= 0.0
  {
  }

  lemma Budget(aMax: real, dt: real, dv: real, vMax: real, b: real)
    requires dv == aMax * dt && b == 0.5 * (vMax * dt) + 0.125 * (dv * dt)
    ensures aMax * b == 0.5 * (dv * vMax) + 0.125 * (dv * dv)
  {
    assert aMax * (vMax * dt) == dv * vMax;
    assert aMax * (dv * dt) == dv * dv;
  }

  /** A step that can stop keeps the budget. */
  lemma StopKeeps(aMax: real, dt: real, dv: real, vMax: real, e: real, v': real, e': real)
    requires aMax >= 0.0 && dt > 0.0 && dv == aMax * dt && 0.0 < v' <= vMax && CanStop(aMax, e, v') && e' == e - v' * dt
    ensures v' * v' - dv * v' - dv * vMax <= 2.0 * aMax * e'
  {
    NonNegative(aMax, dt);
    ScaleMonotone(dv, v', vMax);
    assert aMax * (v' * dt) == dv * v';
    assert 2.0 * aMax * e' == 2.0 * aMax * e - 2.0 * (dv * v');
  }

  /** A step that brakes at the limit keeps it exactly. */
  lemma BrakeKeeps(aMax: real, dt: real, dv: real, vMax: real, e: real, v: real, v': real, e': real)
    requires dv == aMax * dt && v' == v - dv && e' == e - v' * dt
    requires v * v - dv * v - dv * vMax <= 2.0 * aMax * e
    ensures v' * v' - dv * v' - dv * vMax <= 2.0 * aMax * e'
  {
    assert aMax * (v' * dt) == dv * v';
    assert 2.0 * aMax * e' == 2.0 * aMax * e - 2.0 * (dv * v');
    assert v * v - dv * v == v' * v' + dv * v' by {
      assert v == v' + dv;
      assert v * v == v' * v' + 2.0 * (dv * v') + dv * dv;
      assert dv * v == dv * v' + dv * dv;
    }
  }

  lemma StoppableStays(aMax: real, dt: real, dv: real, vMax: real, b: real, e: real, v: real, v': real, e': real)
    requires Allows(aMax, vMax, dt, dv, b) && Stoppable(aMax, dv, vMax, b, e, v) && v' <= vMax && Travelled(e, v', dt, e')
    requires v' > 0.0 ==> (e > 0.0 && CanStop(aMax, e, v')) || v' == v - dv
    ensures Stoppable(aMax, dv, vMax, b, e', v')
  {
    if v' > 0.0 {
      NonNegative(aMax, dt);
      if e > 0.0 && CanStop(aMax, e, v') {
        StopKeeps(aMax, dt, dv, vMax, e, v', e');
      } else {
        BrakeKeeps(aMax, dt, dv, vMax, e, v, v', e');
      }
      NotPast(aMax, dt, dv, vMax, b, e', v');
    } else {
      NonNegative(-v', dt);
      assert (-v') * dt == -(v' * dt);
    }
  }

  /** Seen from the side the joint comes from: `up` if from below the target. */
  function Facing(up: bool, x: real): real {
    if up then x else -x
  }

  ghost predicate JointStoppable(p: Params, dv: real, b: real, up: bool, err: real, v: real) {
    Stoppable(p.aMax, dv, p.vMax, b, Facing(up, err), Facing(up, v))
  }

  /** One pass of one joint on a standing target. */
  lemma StepStoppable(p: Params, s: Track, tgt: Vec, dt: real, dv: real, b: real, i: nat, up: bool)
    requires p.Valid() && Shaped(s, |tgt|) && dt > 0.0 && i < |tgt| && SpeedOk(p, Some(s)) && Allows(p.aMax, p.vMax, dt, dv, b)
    requires JointStoppable(p, dv, b, up, tgt[i] - s.q[i], s.v[i])
    ensures var s' := Limited(p, s, tgt, dt, None); JointStoppable(p, dv, b, up, tgt[i] - s'.q[i], s'.v[i])
  {
    hide p.Valid, Limited, NextVel, DesiredVel, JointStoppable, NextPos, SpeedOk, Allows, Travelled;
    var s' := Limited(p, s, tgt, dt, None);
    SpeedAfter(p, s, tgt, dt, i);
    LimitedAt(p, s, tgt, dt, i);
    ErrorAfter(tgt[i], s.q[i], s'.v[i], dt, s'.q[i]);
    JointStaysStoppable(p, dt, dv, b, up, tgt[i] - s.q[i], s.v[i], tgt[i] - s'.q[i], s'.v[i]);
  }

  lemma ErrorAfter(tgt: real, q: real, v: real, dt: real, q': real)
    requires q' == NextPos(q, v, dt)
    ensures Travelled(tgt - q, v, dt, tgt - q')
  {
  }

  lemma SpeedAfter(p: Params, s: Track, tgt: Vec, dt: real, i: nat)
    requires p.Valid() && Shaped(s, |tgt|) && dt > 0.0 && i < |tgt| && SpeedOk(p, Some(s))
    ensures Abs(Limited(p, s, tgt, dt, None).v[i]) <= p.vMax
  {
    var dv, dq := p.aMax * dt, p.vMax * dt;
    hide p.Valid, Limited, Budgets;
    BudgetsAre(p, dt, dv, dq);
    LimitedLimits(p, s, tgt, dt, None, dv, dq);
  }

  lemma JointStaysStoppable(p: Params, dt: real, dv: real, b: real, up: bool, err: real, v: real, err': real, v': real)
    requires p.Valid() && dt > 0.0 && Allows(p.aMax, p.vMax, dt, dv, b) && JointStoppable(p, dv, b, up, err, v) && Abs(v') <= p.vMax
    requires v' == NextVel(p, v, DesiredVel(p, err, 0.0), dt) && Travelled(err, v', dt, err')
    ensures JointStoppable(p, dv, b, up, err', v')
  {
    hide p.Valid, NextVel, DesiredVel, Stoppable, CanStop, Allows, Travelled;
    OneSide(p, err, v, dt, dv, b);
    FacingTravel(up, err, v', dt, err');
    StoppableStays(p.aMax, dt, dv, p.vMax, b, Facing(up, err), Facing(up, v), Facing(up, v'), Facing(up, err'));
  }

  lemma OneSide(p: Params, err: real, v: real, dt: real, dv: real, b: real)
    requires p.Valid() && Allows(p.aMax, p.vMax, dt, dv, b)
    ensures var v' := NextVel(p, v, DesiredVel(p, err, 0.0), dt);
            && (v' > 0.0 ==> (err > 0.0 && CanStop(p.aMax, err, v')) || v' == v - dv)
            && (v' < 0.0 ==> (err < 0.0 && CanStop(p.aMax, -err, -v')) || v' == v + dv)
  {
    hide p.Valid, NextVel, DesiredVel, CanStop;
    OneSideStep(p, err, v, dt, dv);
  }

  lemma FacingTravel(up: bool, err: real, v: real, dt: real, err': real)
    requires Travelled(err, v, dt, err')
    ensures Travelled(Facing(up, err), Facing(up, v), dt, Facing(up, err'))
  {
    assert (-v) * dt == -(v * dt);
  }

  lemma AtRestStoppable(p: Params, dt: real, dv: real, b: real, up: bool, err: real)
    requires p.Valid() && dt > 0.0 && Allows(p.aMax, p.vMax, dt, dv, b) && Facing(up, err) >= 0.0
    ensures JointStoppable(p, dv, b, up, err, 0.0)
  {
    NonNegative(p.vMax, dt);
    NonNegative(p.aMax, dt);
    NonNegative(dv, dt);
  }

  /** One target throughout, without feed-forward; it may go stale and come back. */
  ghost predicate Standing(fs: seq<Feed>, tgt: Vec, dt: real) {
    forall k | 0 <= k < |fs| :: fs[k].target == Some(tgt) && fs[k].vff.None? && fs[k].dt == dt
  }

  /** The joint is on its side of the target, or was not started. */
  ghost predicate OnItsWay(p: Params, dv: real, b: real, up: bool, tgt: Vec, s: Option<Track>, i: nat)
    requires TrackOk(s) && i < |tgt|
  {
    s.Some? ==> |s.value.q| == |tgt| && JointStoppable(p, dv, b, up, tgt[i] - s.value.q[i], s.value.v[i])
  }

  lemma PassOnItsWay(p: Params, s: Option<Track>, f: Feed, tgt: Vec, dv: real, b: real, i: nat, up: bool)
    requires p.Valid() && TrackOk(s) && SpeedOk(p, s) && i < |tgt| && f.dt > 0.0 && OnItsWay(p, dv, b, up, tgt, s, i)
    requires f.target == Some(tgt) && f.vff.None? && Allows(p.aMax, p.vMax, f.dt, dv, b)
    ensures OnItsWay(p, dv, b, up, tgt, Pass(p, s, f).0, i)
  {
    hide Limited, Dist, p.Valid, JointStoppable, SpeedOk, Allows;
    assert tgt[i] - tgt[i] == 0.0;
    AtRestStoppable(p, f.dt, dv, b, up, 0.0);
    if s.Some? {
      StillStoppable(p, dv, b, up, tgt[i] - s.value.q[i], s.value.v[i]);
      StepStoppable(p, s.value, tgt, f.dt, dv, b, i, up);
    }
  }

  /** Standing still keeps the joint where it is. */
  lemma StillStoppable(p: Params, dv: real, b: real, up: bool, err: real, v: real)
    requires JointStoppable(p, dv, b, up, err, v)
    ensures JointStoppable(p, dv, b, up, err, 0.0)
  {
  }

  lemma {:induction false} StaysOnItsWay(
    p: Params, s0: Option<Track>, fs: seq<Feed>, tgt: Vec, dt: real, dv: real, b: real, i: nat, up: bool, k: nat)
    requires p.Valid() && TrackOk(s0) && SpeedOk(p, s0) && FeedsOk(fs) && Standing(fs, tgt, dt) && dt > 0.0
    requires i < |tgt| && Allows(p.aMax, p.vMax, dt, dv, b) && OnItsWay(p, dv, b, up, tgt, s0, i) && k <= |fs|
    ensures OnItsWay(p, dv, b, up, tgt, After(p, s0, fs, k), i)
  {
    hide p.Valid, SpeedOk, OnItsWay, Pass, Allows;
    if k > 0 {
      StaysOnItsWay(p, s0, fs, tgt, dt, dv, b, i, up, k - 1);
      SpeedNeverExceeded(p, s0, fs, k - 1);
      PassOnItsWay(p, After(p, s0, fs, k - 1), fs[k - 1], tgt, dv, b, i, up);
    }
  }

  /**
   A target that stands still: a joint that starts at rest, on whichever side, never passes it by more than half a
   pass at the speed limit and an eighth of a pass's acceleration, however often the target goes stale.
   */
  lemma {:induction false} OvershootBounded(
    p: Params, s0: Track, fs: seq<Feed>, tgt: Vec, dt: real, i: nat, k: nat)
    requires p.Valid() && TrackOk(Some(s0)) && SpeedOk(p, Some(s0)) && FeedsOk(fs) && Standing(fs, tgt, dt) && dt > 0.0
    requires |s0.q| == |tgt| && i < |tgt| && s0.v[i] == 0.0 && k <= |fs|
    ensures var s := After(p, Some(s0), fs, k);
            && s.Some? && |s.value.q| == |tgt|
            && (s0.q[i] <= tgt[i] ==> s.value.q[i] <= tgt[i] + Overshoot(p, dt))
            && (s0.q[i] >= tgt[i] ==> s.value.q[i] >= tgt[i] - Overshoot(p, dt))
  {
    hide p.Valid, SpeedOk, Overshoot, After, Allows;
    var dv, b := Allowances(p, dt);
    StartedStays(p, Some(s0), fs, k);
    var up := s0.q[i] <= tgt[i];
    AtRestStoppable(p, dt, dv, b, up, tgt[i] - s0.q[i]);
    StaysOnItsWay(p, Some(s0), fs, tgt, dt, dv, b, i, up, k);
    if s0.q[i] == tgt[i] {
      AtRestStoppable(p, dt, dv, b, false, tgt[i] - s0.q[i]);
      StaysOnItsWay(p, Some(s0), fs, tgt, dt, dv, b, i, false, k);
    }
  }

  lemma {:induction false} StartedStays(p: Params, s0: Option<Track>, fs: seq<Feed>, k: nat)
    requires TrackOk(s0) && FeedsOk(fs) && s0.Some? && k <= |fs|
    ensures After(p, s0, fs, k).Some?
  {
    hide Limited, OutOfReach;
    if k > 0 {
      StartedStays(p, s0, fs, k - 1);
    }
  }

  // -------------------------------------------------------------------------- feed-forward

  /** The target moves along at velocity c, which is also its feed-forward. */
  ghost predicate Cruising(p: Params, fs: seq<Feed>, c: Vec, dt: real) {
    && (forall i | 0 <= i < |c| :: Abs(c[i]) <= p.vMax)
    && (forall k | 0 <= k < |fs| ::
          fs[k].target.Some? && |fs[k].target.value| == |c| && fs[k].vff == Some(c) && fs[k].live && fs[k].dt == dt)
    && forall j, k, i | 0 <= j && k == j + 1 && k < |fs| && 0 <= i < |c| ::
         fs[k].target.value[i] == fs[j].target.value[i] + c[i] * dt
  }

  /** On the target and moving with it. */
  ghost predicate Locked(s: Option<Track>, tgt: Vec, c: Vec) {
    s == Some(Track(tgt, c, c))
  }

  lemma FeedForwardStands(p: Params, c: Vec, dt: real)
    ensures FeedForward(p, c, Some(c), dt) == c
  {
    forall i | 0 <= i < |c| ensures FeedForward(p, c, Some(c), dt)[i] == c[i] {
      assert Min(1.0, dt / (if p.ffTau > 0.0 then p.ffTau else 1.0)) * 0.0 == 0.0;
    }
  }

  lemma NoErrorKeepsVelocity(p: Params, c: real, dt: real)
    requires p.Valid() && Abs(c) <= p.vMax && dt > 0.0
    ensures NextVel(p, c, DesiredVel(p, 0.0, c), dt) == c
  {
    RootIs(p, 0.0);
    NonNegative(p.aMax, dt);
    assert p.kp * 0.0 == 0.0;
  }

  lemma {:induction false} LockedStep(p: Params, f: Feed, c: Vec, dt: real)
    requires p.Valid() && dt > 0.0 && f.target.Some? && |f.target.value| == |c| && f.vff == Some(c) && f.live && f.dt == dt
    requires forall i | 0 <= i < |c| :: Abs(c[i]) <= p.vMax
    ensures var s := Pass(p, Some(Track(f.target.value, c, c)), f).0;
            && s.Some? && s.value.v == c && s.value.ff == c && |s.value.q| == |c|
            && forall i | 0 <= i < |c| :: s.value.q[i] == f.target.value[i] + c[i] * dt
  {
    var tgt := f.target.value;
    var s := Track(tgt, c, c);
    FeedForwardStands(p, c, dt);
    DistZero(tgt, tgt);
    assert p.lead >= 0.0;
    var s' := Limited(p, s, tgt, dt, Some(c));
    hide p.Valid, FeedForward, NextVel, DesiredVel, Limited, Dist;
    forall i | 0 <= i < |c| ensures s'.v[i] == c[i] && s'.q[i] == tgt[i] + c[i] * dt {
      NoErrorKeepsVelocity(p, c[i], dt);
      assert tgt[i] - tgt[i] == 0.0;
    }
  }

  /**
   With its own velocity as feed-forward a target at constant speed is followed without any lag: once on it, and
   whatever the smoothing, the shaper stays on it.
   */
  lemma {:induction false} FeedForwardNoLag(p: Params, s0: Option<Track>, fs: seq<Feed>, c: Vec, dt: real, k: nat)
    requires p.Valid() && TrackOk(s0) && FeedsOk(fs) && Cruising(p, fs, c, dt) && dt > 0.0 && k < |fs|
    requires Locked(s0, fs[0].target.value, c)
    ensures Locked(After(p, s0, fs, k), fs[k].target.value, c)
  {
    hide p.Valid, Pass;
    if k > 0 {
      var j := k - 1;
      FeedForwardNoLag(p, s0, fs, c, dt, j);
      LockedStep(p, fs[j], c, dt);
      var s := Pass(p, After(p, s0, fs, j), fs[j]).0;
      assert s.value.q == fs[k].target.value;
    }
  }
}
