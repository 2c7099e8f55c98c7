// What the shaper guarantees over whole runs: its limits for every target stream, and how closely it
// follows a target that moves slowly enough.
module ShaperRuns {
  import opened Options
  import opened JointSpace
  import opened CommandShaper

  ghost predicate TrackOk(s: Option<Track>) {
    s.Some? ==> Shaped(s.value, |s.value.q|)
  }

  ghost predicate FeedsOk(fs: seq<Feed>) {
    forall k | 0 <= k < |fs| :: FeedOk(fs[k]) && fs[k].dt > 0.0
  }

  /** The memory after the first k passes. */
  ghost function After(p: Params, s0: Option<Track>, fs: seq<Feed>, k: nat): (s: Option<Track>)
    requires TrackOk(s0) && FeedsOk(fs) && k <= |fs|
    ensures TrackOk(s)
  {
    if k == 0 then s0 else Pass(p, After(p, s0, fs, k - 1), fs[k - 1]).0
  }

  // ----------------------------------------------------------------- limits, any targets

  ghost predicate SpeedOk(p: Params, s: Option<Track>) {
    s.Some? ==> forall i | 0 <= i < |s.value.v| :: Abs(s.value.v[i]) <= p.vMax
  }

  /** The most a velocity and a position may change in one pass of length dt. */
  ghost predicate Budgets(p: Params, dt: real, dv: real, dq: real) {
    dt > 0.0 && dv == p.aMax * dt && dq == p.vMax * dt
  }

  /** A step between two admissible velocities is admissible, and no larger than the acceleration allows. */
  lemma NextVelLimits(p: Params, v: real, err: real, ff: real, dt: real, dv: real, dq: real)
    requires p.Valid() && Budgets(p, dt, dv, dq) && Abs(v) <= p.vMax
    ensures Abs(NextVel(p, v, DesiredVel(p, err, ff), dt)) <= p.vMax
    ensures Abs(NextVel(p, v, DesiredVel(p, err, ff), dt) - v) <= dv
  {
  }

  lemma TravelLimit(p: Params, q: real, v: real, dt: real, dv: real, dq: real)
    requires Budgets(p, dt, dv, dq) && Abs(v) <= p.vMax
    ensures Abs(NextPos(q, v, dt) - q) <= dq
  {
  }

  /** From s to s' no velocity changes by more than dv and no position by more than dq. */
  ghost predicate StepWithin(s: Track, s': Track, dv: real, dq: real)
    requires Shaped(s, |s.q|) && Shaped(s', |s.q|)
  {
    forall i | 0 <= i < |s.q| :: Abs(s'.v[i] - s.v[i]) <= dv && Abs(s'.q[i] - s.q[i]) <= dq
  }

  lemma LimitedLimits(p: Params, s: Track, tgt: Vec, dt: real, vff: Option<Vec>, dv: real, dq: real)
    requires p.Valid() && Shaped(s, |tgt|) && (vff.Some? ==> |vff.value| == |tgt|) && dt > 0.0
    requires SpeedOk(p, Some(s)) && Budgets(p, dt, dv, dq)
    ensures SpeedOk(p, Some(Limited(p, s, tgt, dt, vff))) && StepWithin(s, Limited(p, s, tgt, dt, vff), dv, dq)
  {
    hide NextVel, DesiredVel, NextPos, Limited, FeedForward, p.Valid, Budgets;
    var s' := Limited(p, s, tgt, dt, vff);
    forall i | 0 <= i < |tgt|
      ensures Abs(s'.v[i]) <= p.vMax && Abs(s'.v[i] - s.v[i]) <= dv && Abs(s'.q[i] - s.q[i]) <= dq
    {
      NextVelLimits(p, s.v[i], tgt[i] - s.q[i], s'.ff[i], dt, dv, dq);
      TravelLimit(p, s.q[i], s'.v[i], dt, dv, dq);
    }
  }

  /** No joint ever exceeds the velocity limit, whatever the targets, feed-forwards, gaps and jumps. */
  lemma {:induction false} SpeedNeverExceeded(p: Params, s0: Option<Track>, fs: seq<Feed>, k: nat)
    requires p.Valid() && TrackOk(s0) && FeedsOk(fs) && k <= |fs| && SpeedOk(p, s0)
    ensures SpeedOk(p, After(p, s0, fs, k))
  {
    hide SpeedOk, Pass, p.Valid;
    if k > 0 {
      SpeedNeverExceeded(p, s0, fs, k - 1);
      PassSpeed(p, After(p, s0, fs, k - 1), fs[k - 1]);
    }
  }

  lemma {:induction false} PassSpeed(p: Params, s: Option<Track>, f: Feed)
    requires p.Valid() && TrackOk(s) && FeedOk(f) && f.dt > 0.0 && SpeedOk(p, s)
    ensures SpeedOk(p, Pass(p, s, f).0)
  {
    hide Limited, OutOfReach, Budgets;
    if f.target.Some? && f.live && s.Some? && |s.value.q| == |f.target.value| {
      var dv, dq := p.aMax * f.dt, p.vMax * f.dt;
      assert Budgets(p, f.dt, dv, dq) by { BudgetsAre(p, f.dt, dv, dq); }
      LimitedLimits(p, s.value, f.target.value, f.dt, f.vff, dv, dq);
    }
  }

  lemma BudgetsAre(p: Params, dt: real, dv: real, dq: real)
    requires dt > 0.0 && dv == p.aMax * dt && dq == p.vMax * dt
    ensures Budgets(p, dt, dv, dq)
  {
  }

  /** The pass continues the motion: a live target of the same size, within reach. */
  ghost predicate Continues(p: Params, s: Option<Track>, f: Feed) {
    s.Some? && f.target.Some? && f.live && |s.value.q| == |f.target.value| && !OutOfReach(p, s, f.target.value)
  }

  /** Two samples published in consecutive passes obey both limits, unless the second restarts the motion. */
  lemma {:induction false} ConsecutiveSamples(p: Params, s0: Option<Track>, fs: seq<Feed>, k: nat, dv: real, dq: real)
    requires p.Valid() && TrackOk(s0) && FeedsOk(fs) && k < |fs| && SpeedOk(p, s0)
    requires Continues(p, After(p, s0, fs, k), fs[k])
    requires Budgets(p, fs[k].dt, dv, dq)
    ensures var s, s' := After(p, s0, fs, k), After(p, s0, fs, k + 1);
            && Pass(p, s, fs[k]).1 == Some(s'.value.q) && Shaped(s'.value, |s.value.q|)
            && StepWithin(s.value, s'.value, dv, dq)
  {
    hide Limited, OutOfReach, p.Valid, StepWithin, Budgets;
    SpeedNeverExceeded(p, s0, fs, k);
    LimitedLimits(p, After(p, s0, fs, k).value, fs[k].target.value, fs[k].dt, fs[k].vff, dv, dq);
  }

  /** After every published sample the pose is within the resync distance, plus one step, of its target. */
  lemma {:induction false} PublishedNearTarget(p: Params, s0: Option<Track>, fs: seq<Feed>, k: nat, dv: real, dq: real)
    requires p.Valid() && TrackOk(s0) && FeedsOk(fs) && k < |fs| && SpeedOk(p, s0)
    requires Pass(p, After(p, s0, fs, k), fs[k]).1.Some? && Budgets(p, fs[k].dt, dv, dq)
    ensures var q := Pass(p, After(p, s0, fs, k), fs[k]).1.value;
            |q| == |fs[k].target.value| && Dist(q, fs[k].target.value) <= p.lead + dq
  {
    NonNegative(p.vMax, fs[k].dt);
    assert 0.0 <= p.lead && 0.0 <= dq;
    hide Limited, Dist, p.Valid, Budgets;
    var s, f := After(p, s0, fs, k), fs[k];
    if Continues(p, s, f) {
      ConsecutiveSamples(p, s0, fs, k, dv, dq);
      var q := Pass(p, s, f).1.value;
      DistLeast(q, s.value.q, dq);
      DistTriangle(q, s.value.q, f.target.value);
    } else {
      DistZero(f.target.value, f.target.value);
    }
  }

  /** The pass length the loop uses is at most four periods, so that one step is at most vMax * 4 / rate. */
  lemma PassLength(p: Params, elapsed: real)
    requires p.Valid()
    ensures 0.25 * (1.0 / p.rate) <= ClampDt(p, elapsed) <= 4.0 * (1.0 / p.rate) && ClampDt(p, elapsed) > 0.0
    ensures 0.25 * (1.0 / p.rate) <= elapsed <= 4.0 * (1.0 / p.rate) ==> ClampDt(p, elapsed) == elapsed
    ensures elapsed < 0.25 * (1.0 / p.rate) ==> ClampDt(p, elapsed) == 0.25 * (1.0 / p.rate)
    ensures elapsed > 4.0 * (1.0 / p.rate) ==> ClampDt(p, elapsed) == 4.0 * (1.0 / p.rate)
    ensures p.vMax * ClampDt(p, elapsed) <= p.vMax * (4.0 * (1.0 / p.rate))
  {
  }

  // --------------------------------------------------------------------- the tracking lag

  /**
   A target that is never more than `off` from a reference moving at most u per second, and that itself jumps by
   at most `jump` between two passes of length dt. A target held while its reference moves on is one.
   */
  datatype Held = Held(u: real, off: real, jump: real, dt: real)

  /** k * x, under a name that keeps products closed in the proofs that only combine them. */
  function Times(k: real, x: real): real {
    k * x
  }

  lemma TimesAdds(k: real, x: real, y: real, z: real)
    requires z == x + y
    ensures Times(k, z) == Times(k, x) + Times(k, y)
  {
  }

  lemma TimesBound(k: real, x: real, y: real)
    requires k >= 0.0 && Abs(x) <= y
    ensures Abs(Times(k, x)) <= Times(k, y)
  {
    var kx, ky := ScaleAbs(k, x, y);
  }

  lemma TimesTimes(k: real, x: real, y: real, z: real)
    requires z == x * y
    ensures Times(k, z) == Times(Times(k, y), x) == Times(x, Times(k, y))
  {
  }

  /** The most the proportional term then asks for. */
  function Most(kp: real, h: Held): real {
    h.u + 2.0 * Times(kp, h.off)
  }

  /** What such a target asks of the gains, apart from the velocity limit and the resync distance. */
  ghost predicate Gains(kp: real, h: Held, aMax: real) {
    && kp > 0.0 && h.dt > 0.0 && h.u >= 0.0 && h.off >= 0.0 && Times(kp, h.dt) <= 1.0
    && Times(kp, Most(kp, h)) <= 2.0 * aMax
    && Times(kp, h.jump) + Times(Times(kp, h.dt), Most(kp, h)) <= Times(aMax, h.dt)
  }

  /** How far what is published can be from the reference: u / kp + off. */
  function Behind(p: Params, h: Held): real {
    if p.kp > 0.0 then h.u / p.kp + h.off else 0.0
  }

  /** A target the shaper can follow with its limits idle. */
  ghost predicate Kept(p: Params, h: Held) {
    p.Valid() && Gains(p.kp, h, p.aMax) && Most(p.kp, h) <= p.vMax && Most(p.kp, h) <= p.lead * p.kp
  }

  /**
   A target speed u the shaper can follow with its limits idle when the target moves at every pass. The home
   ramp clamps its speed to 0.9 * vMax and to 0.5 * lead * kp; the condition on aMax is the configuration's to meet.
   */
  ghost predicate Followable(p: Params, u: real, dt: real) {
    && p.Valid() && p.kp > 0.0 && dt > 0.0 && u >= 0.0 && p.kp * dt <= 1.0 && 2.0 * (p.kp * u) <= p.aMax
    && u <= p.vMax && u <= 0.5 * (p.lead * p.kp)
  }

  /** du is the most the reference moves in one pass. */
  ghost predicate PerPass(u: real, dt: real, du: real) {
    du == u * dt
  }

  lemma FollowableKept(p: Params, u: real, dt: real, du: real)
    requires Followable(p, u, dt) && PerPass(u, dt, du)
    ensures Kept(p, Held(u, 0.0, du, dt)) && Most(p.kp, Held(u, 0.0, du, dt)) == u
  {
    NonNegative(p.lead, p.kp);
    NonNegative(p.kp, u);
    AccelBudget(p.kp, u, dt, p.aMax);
    hide p.Valid;
  }

  lemma AccelBudget(kp: real, u: real, dt: real, aMax: real)
    requires dt > 0.0 && 2.0 * (kp * u) <= aMax
    ensures kp * (u * dt) + kp * dt * u <= aMax * dt
  {
    ScaleMonotone(dt, 2.0 * (kp * u), aMax);
    assert kp * (u * dt) == kp * dt * u == dt * (kp * u);
  }

  /** At the last pass the velocity was kp times the target's lead, and the reference was at most u / kp + off ahead. */
  ghost predicate Lag(kp: real, h: Held, ref: real, tgt: real, was: real, v: real) {
    v == Times(kp, tgt - was) && RefNear(kp, h, was, ref) && Abs(tgt - ref) <= h.off
  }

  ghost predicate RefNear(kp: real, h: Held, q: real, ref: real) {
    Abs(Times(kp, ref - q)) <= h.u + Times(kp, h.off)
  }

  /** kp times an error is a speed within reach of v in one pass. */
  ghost predicate Asked(kp: real, err: real, most: real, v: real, aMax: real, dt: real) {
    Abs(Times(kp, err)) <= most && Abs(Times(kp, err) - v) <= Times(aMax, dt)
  }

  /** The part of a lead that one pass leaves: for a share a of it gone, at most (1 - a) of its bound. */
  lemma PartLeft(a: real, x: real, b: real)
    requires 0.0 <= a <= 1.0 && Abs(x) <= b
    ensures Abs(x - Times(a, x)) <= b - Times(a, b)
  {
    var bx, bb := ScaleAbs(1.0 - a, x, b);
    assert bx == x - a * x && bb == b - a * b;
  }

  /** The reference's lead stays within u / kp + off. */
  lemma RefStays(kp: real, h: Held, ref: real, tgt: real, was: real, v: real, ref': real, du: real, q: real)
    requires kp > 0.0 && h.dt > 0.0 && h.u >= 0.0 && h.off >= 0.0 && Times(kp, h.dt) <= 1.0 && PerPass(h.u, h.dt, du)
    requires Lag(kp, h, ref, tgt, was, v) && Abs(ref' - ref) <= du && q == NextPos(was, v, h.dt)
    ensures RefNear(kp, h, q, ref')
  {
    var a, w, au := Times(kp, h.dt), Times(kp, h.off), Times(kp, du);
    var x, y, m := Times(kp, ref - was), Times(kp, tgt - ref), Times(kp, ref' - ref);
    hide Times, NextPos, PerPass;
    StepMoves(kp, h.dt, was, v, q);
    PaceUnits(kp, h.u, h.dt, du);
    TimesSign(kp, h.dt);
    TimesAdds(kp, ref - was, tgt - ref, tgt - was);
    TimesBound(kp, tgt - ref, h.off);
    TimesBound(kp, ref' - ref, du);
    TimesAdds(a, x, y, v);
    PartLeft(a, x, h.u + w);
    TimesAdds(a, h.u, w, h.u + w);
    TimesBound(a, y, w);
    TimesAdds(kp, ref' - was, was - q, ref' - q);
    TimesAdds(kp, ref - was, ref' - ref, ref' - was);
    assert Times(kp, ref' - q) == x + m - Times(a, x) - Times(a, y);
  }

  /** What a pass moves, in units of velocity: the share kp * dt of its velocity. */
  lemma StepMoves(kp: real, dt: real, was: real, v: real, q: real)
    requires q == NextPos(was, v, dt)
    ensures Times(kp, was - q) == -Times(Times(kp, dt), v)
  {
    TimesTimes(kp, v, dt, q - was);
  }

  lemma PaceUnits(kp: real, u: real, dt: real, du: real)
    requires kp > 0.0 && dt > 0.0 && PerPass(u, dt, du)
    ensures Times(kp, du) == Times(Times(kp, dt), u)
  {
    TimesTimes(kp, u, dt, du);
  }

  lemma TimesSign(k: real, x: real)
    requires k >= 0.0 && x >= 0.0
    ensures Times(k, x) >= 0.0
  {
  }

  /** From a pose within that lead the next velocity is at most Most, and within reach of the last one. */
  lemma NextAsked(kp: real, h: Held, aMax: real, tgt: real, was: real, v: real, ref': real, tgt': real, q: real)
    requires Gains(kp, h, aMax) && v == Times(kp, tgt - was) && Abs(v) <= Most(kp, h) && q == NextPos(was, v, h.dt)
    requires RefNear(kp, h, q, ref') && Abs(tgt' - ref') <= h.off && Abs(tgt' - tgt) <= h.jump
    ensures Asked(kp, tgt' - q, Most(kp, h), v, aMax, h.dt)
  {
    hide Times, NextPos, Most, PerPass;
    var a := Times(kp, h.dt);
    StepMoves(kp, h.dt, was, v, q);
    assert a >= 0.0 by { TimesSign(kp, h.dt); }
    WithinMost(kp, h, q, ref', tgt');
    hide RefNear;
    TimesBound(kp, tgt' - tgt, h.jump);
    TimesBound(a, v, Most(kp, h));
    TimesAdds(kp, tgt' - tgt, tgt - was, tgt' - was);
    TimesAdds(kp, tgt' - was, was - q, tgt' - q);
    assert Times(kp, tgt' - q) - v == Times(kp, tgt' - tgt) - Times(a, v);
  }

  /** The target's own lead is that of the reference and at most off. */
  lemma WithinMost(kp: real, h: Held, q: real, ref: real, tgt: real)
    requires kp > 0.0 && RefNear(kp, h, q, ref) && Abs(tgt - ref) <= h.off
    ensures Abs(Times(kp, tgt - q)) <= Most(kp, h)
  {
    hide Times;
    TimesBound(kp, tgt - ref, h.off);
    TimesAdds(kp, ref - q, tgt - ref, tgt - q);
  }

  /** The brake never binds on an error of at most Most / kp. */
  lemma BrakeIdle(p: Params, most: real, err: real)
    requires p.Valid() && p.kp > 0.0 && Times(p.kp, most) <= 2.0 * p.aMax && Abs(Times(p.kp, err)) <= most
    ensures Abs(Times(p.kp, err)) <= Brake(p, err)
  {
    RootIs(p, err);
    hide Brake, p.Valid;
    var w, d := Brake(p, err), Abs(Times(p.kp, err));
    assert d == Times(p.kp, Abs(err)) by { AbsProduct(p.kp, err); }
    assert Times(p.kp, d) <= Times(p.kp, most) by { ScaleMonotone(p.kp, d, most); }
    BrakeCore(p.kp, Abs(err), d, 2.0 * p.aMax, w);
  }

  /** d = kp * e and kp * d <= m and w * w = m * e leave d no larger than w. */
  lemma BrakeCore(kp: real, e: real, d: real, m: real, w: real)
    requires kp > 0.0 && e >= 0.0 && d == Times(kp, e) && Times(kp, d) <= m && w >= 0.0 && w * w == m * e
    ensures d <= w
  {
    assert d * d <= m * e by {
      ScaleMonotone(e, Times(kp, d), m);
      assert d * d == e * (kp * d);
    }
    NotLarger(d, w);
  }

  lemma NotLarger(d: real, w: real)
    requires w >= 0.0 && d * d <= w * w
    ensures d <= w
  {
    if d > w {
      var gap := (d - w) * (d + w);
      assert gap == d * d - w * w;
      ScaleStrictly(d - w, 0.0, d + w);
      assert false;
    }
  }

  lemma RootIs(p: Params, err: real)
    requires p.Valid()
    ensures Brake(p, err) >= 0.0 && Brake(p, err) * Brake(p, err) == 2.0 * p.aMax * Abs(err)
  {
  }

  /** None of the three limits changes the proportional step toward an error of err. */
  ghost predicate LimitsIdle(p: Params, err: real, v: real, dt: real) {
    Abs(p.kp * err) <= Brake(p, err) && Abs(p.kp * err) <= p.vMax && Abs(p.kp * err - v) <= p.aMax * dt
  }

  lemma TowardIdle(kp: real, err: real, b: real, vMax: real)
    requires Abs(kp * err) <= b && Abs(kp * err) <= vMax
    ensures Toward(kp, err, b, 0.0, vMax) == kp * err
  {
  }

  lemma SlewIdle(v: real, d: real, aMax: real, dt: real)
    requires Abs(d - v) <= aMax * dt
    ensures Slew(v, d, aMax, dt) == d
  {
  }

  lemma IdleStep(p: Params, err: real, v: real, dt: real)
    requires LimitsIdle(p, err, v, dt)
    ensures NextVel(p, v, DesiredVel(p, err, 0.0), dt) == p.kp * err
  {
    hide Brake, Toward, Slew;
    TowardIdle(p.kp, err, Brake(p, err), p.vMax);
    SlewIdle(v, DesiredVel(p, err, 0.0), p.aMax, dt);
  }

  lemma AskedIsIdle(p: Params, most: real, dt: real, err: real, v: real)
    requires p.Valid() && p.kp > 0.0 && Times(p.kp, most) <= 2.0 * p.aMax && most <= p.vMax
    requires Asked(p.kp, err, most, v, p.aMax, dt)
    ensures LimitsIdle(p, err, v, dt)
  {
    BrakeIdle(p, most, err);
    AreIdle(p, Times(p.kp, err), dt, err, v);
  }

  lemma AreIdle(p: Params, d: real, dt: real, err: real, v: real)
    requires d == Times(p.kp, err) && Abs(d) <= Brake(p, err) && Abs(d) <= p.vMax && Abs(d - v) <= Times(p.aMax, dt)
    ensures LimitsIdle(p, err, v, dt)
  {
    hide Brake;
  }

  lemma IdleVelocity(p: Params, err: real, v: real, dt: real)
    requires LimitsIdle(p, err, v, dt)
    ensures NextVel(p, v, DesiredVel(p, err, 0.0), dt) == Times(p.kp, err)
  {
    hide LimitsIdle, NextVel, DesiredVel;
    IdleStep(p, err, v, dt);
  }

  /** One joint, one pass: the limits stay idle and the joint is left in lag again. */
  lemma JointFollows(
    p: Params, h: Held, du: real, ref: real, tgt: real, was: real, q: real, v: real, ref': real, tgt': real, q': real, v': real)
    requires Kept(p, h) && PerPass(h.u, h.dt, du) && JointLag(p, h, ref, tgt, was, q, v)
    requires Abs(ref' - ref) <= du && Abs(tgt' - ref') <= h.off && Abs(tgt' - tgt) <= h.jump
    requires v' == NextVel(p, v, DesiredVel(p, tgt' - q, 0.0), h.dt) && q' == NextPos(q, v', h.dt)
    ensures JointIdle(p, tgt', q, v, h.dt) && RefNear(p.kp, h, q, ref')
    ensures JointLag(p, h, ref', tgt', q, q', v')
  {
    hide Times, Most, p.Valid, NextVel, DesiredVel, LimitsIdle, NextPos, PerPass, Asked, RefNear;
    RefStays(p.kp, h, ref, tgt, was, v, ref', du, q);
    WithinMost(p.kp, h, was, ref, tgt);
    NextAsked(p.kp, h, p.aMax, tgt, was, v, ref', tgt', q);
    AskedIsIdle(p, Most(p.kp, h), h.dt, tgt' - q, v);
    IdleVelocity(p, tgt' - q, v, h.dt);
  }

  ghost predicate JointLag(p: Params, h: Held, ref: real, tgt: real, was: real, q: real, v: real) {
    Lag(p.kp, h, ref, tgt, was, v) && q == NextPos(was, v, h.dt)
  }

  /** Every joint is in lag since the pose `was`. */
  ghost predicate InLag(p: Params, h: Held, was: Vec, s: Track, ref: Vec, tgt: Vec) {
    && Shaped(s, |tgt|) && |was| == |ref| == |tgt|
    && forall i | 0 <= i < |tgt| :: JointLag(p, h, ref[i], tgt[i], was[i], s.q[i], s.v[i])
  }

  ghost predicate JointIdle(p: Params, tgt: real, q: real, v: real, dt: real) {
    LimitsIdle(p, tgt - q, v, dt)
  }

  /** No limit changes any joint's step toward tgt. */
  ghost predicate AllIdle(p: Params, s: Track, tgt: Vec, dt: real) {
    Shaped(s, |tgt|) && forall i | 0 <= i < |tgt| :: JointIdle(p, tgt[i], s.q[i], s.v[i], dt)
  }

  /** The reference's lead over the pose, joint by joint. */
  ghost predicate NearlyThere(kp: real, h: Held, q: Vec, ref: Vec) {
    |q| == |ref| && forall i | 0 <= i < |ref| :: RefNear(kp, h, q[i], ref[i])
  }

  /** Every pass sees a live target without feed-forward, within `off` of a reference that moves at most du a pass. */
  ghost predicate HeldFeed(fs: seq<Feed>, refs: seq<Vec>, h: Held, du: real) {
    && |refs| == |fs|
    && (forall k | 0 <= k < |fs| ::
          && fs[k].target.Some? && fs[k].vff.None? && fs[k].live && fs[k].dt == h.dt
          && |refs[k]| == |fs[k].target.value| && Dist(refs[k], fs[k].target.value) <= h.off)
    && forall j, k | 0 <= j && k == j + 1 && k < |fs| ::
         && |refs[k]| == |refs[j]| && Dist(refs[j], refs[k]) <= du
         && Dist(fs[j].target.value, fs[k].target.value) <= h.jump
  }

  lemma RestIsLag(p: Params, h: Held, ref: Vec, tgt: Vec)
    requires Kept(p, h) && |ref| == |tgt| && Dist(ref, tgt) <= h.off
    ensures InLag(p, h, tgt, AtRest(tgt), ref, tgt)
  {
    assert p.kp > 0.0 && h.u >= 0.0;
    hide Dist, Lag, Kept;
    forall i | 0 <= i < |tgt| ensures JointLag(p, h, ref[i], tgt[i], tgt[i], tgt[i], 0.0) {
      DistAt(ref, tgt, i);
      RestJoint(p.kp, h, ref[i], tgt[i]);
    }
  }

  lemma RestJoint(kp: real, h: Held, ref: real, tgt: real)
    requires kp > 0.0 && h.u >= 0.0 && Abs(tgt - ref) <= h.off
    ensures Lag(kp, h, ref, tgt, tgt, 0.0)
  {
    TimesBound(kp, ref - tgt, h.off);
  }

  lemma {:induction false} StepFollows(p: Params, h: Held, du: real, was: Vec, s: Track, ref: Vec, tgt: Vec, ref': Vec, tgt': Vec)
    requires Kept(p, h) && PerPass(h.u, h.dt, du) && InLag(p, h, was, s, ref, tgt)
    requires |tgt'| == |ref'| == |tgt| && Dist(ref, ref') <= du && Dist(ref', tgt') <= h.off && Dist(tgt, tgt') <= h.jump
    ensures InLag(p, h, s.q, Limited(p, s, tgt', h.dt, None), ref', tgt')
    ensures NearlyThere(p.kp, h, s.q, ref') && AllIdle(p, s, tgt', h.dt)
  {
    hide Kept, PerPass, JointLag, JointIdle, RefNear, Limited, Dist;
    forall i | 0 <= i < |tgt|
      ensures JointIdle(p, tgt'[i], s.q[i], s.v[i], h.dt) && RefNear(p.kp, h, s.q[i], ref'[i])
      ensures var s' := Limited(p, s, tgt', h.dt, None); JointLag(p, h, ref'[i], tgt'[i], s.q[i], s'.q[i], s'.v[i])
    {
      JointStep(p, h, du, was, s, ref, tgt, ref', tgt', i);
    }
  }

  lemma {:induction false} LagAt(p: Params, h: Held, was: Vec, s: Track, ref: Vec, tgt: Vec, i: nat)
    requires InLag(p, h, was, s, ref, tgt) && i < |tgt|
    ensures Shaped(s, |tgt|) && |was| == |ref| == |tgt| && JointLag(p, h, ref[i], tgt[i], was[i], s.q[i], s.v[i])
  {
    hide JointLag;
  }

  /** One joint of a step without feed-forward. */
  lemma LimitedAt(p: Params, s: Track, tgt: Vec, dt: real, i: nat)
    requires Shaped(s, |tgt|) && i < |tgt|
    ensures var s' := Limited(p, s, tgt, dt, None);
            && s'.v[i] == NextVel(p, s.v[i], DesiredVel(p, tgt[i] - s.q[i], 0.0), dt)
            && s'.q[i] == NextPos(s.q[i], s'.v[i], dt)
  {
    hide NextVel, DesiredVel, NextPos, Limited;
    assert FeedForward(p, s.ff, None, dt)[i] == 0.0;
  }

  lemma {:induction false} JointStep(p: Params, h: Held, du: real, was: Vec, s: Track, ref: Vec, tgt: Vec, ref': Vec, tgt': Vec, i: nat)
    requires Kept(p, h) && PerPass(h.u, h.dt, du) && InLag(p, h, was, s, ref, tgt) && i < |tgt|
    requires |tgt'| == |ref'| == |tgt| && Dist(ref, ref') <= du && Dist(ref', tgt') <= h.off && Dist(tgt, tgt') <= h.jump
    ensures Shaped(s, |tgt|) && JointIdle(p, tgt'[i], s.q[i], s.v[i], h.dt) && RefNear(p.kp, h, s.q[i], ref'[i])
    ensures var s' := Limited(p, s, tgt', h.dt, None); JointLag(p, h, ref'[i], tgt'[i], s.q[i], s'.q[i], s'.v[i])
  {
    hide InLag, Kept, PerPass, JointLag, JointIdle, RefNear, NextVel, DesiredVel, NextPos, Limited, Dist, FeedForward;
    LagAt(p, h, was, s, ref, tgt, i);
    LimitedAt(p, s, tgt', h.dt, i);
    var s' := Limited(p, s, tgt', h.dt, None);
    assert Abs(ref'[i] - ref[i]) <= du by { DistAt(ref, ref', i); }
    assert Abs(tgt'[i] - ref'[i]) <= h.off by { DistAt(ref', tgt', i); }
    assert Abs(tgt'[i] - tgt[i]) <= h.jump by { DistAt(tgt, tgt', i); }
    JointFollows(p, h, du, ref[i], tgt[i], was[i], s.q[i], s.v[i], ref'[i], tgt'[i], s'.q[i], s'.v[i]);
  }

  lemma NearScalar(kp: real, h: Held, q: real, ref: real, e: real)
    requires kp > 0.0 && RefNear(kp, h, q, ref) && Times(kp, e) == h.u + Times(kp, h.off)
    ensures Abs(ref - q) <= e
  {
    AbsProduct(kp, ref - q);
    if Abs(ref - q) > e {
      ScaleStrictly(kp, e, Abs(ref - q));
      assert false;
    }
  }

  /** Such a lag is within the resync distance. */
  lemma {:induction false} NearMeansReachable(p: Params, h: Held, q: Vec, ref: Vec, tgt: Vec)
    requires Kept(p, h) && NearlyThere(p.kp, h, q, ref) && |tgt| == |ref| && Dist(ref, tgt) <= h.off
    ensures |q| == |ref| && Dist(q, ref) <= h.u / p.kp + h.off && Dist(q, tgt) <= h.u / p.kp + 2.0 * h.off <= p.lead
  {
    hide RefNear, Dist, Most;
    assert p.kp > 0.0 && h.off >= 0.0 && h.u >= 0.0;
    WithinLead(p.kp, h, p.lead);
    var e := LeadOf(p.kp, h);
    hide Kept;
    forall i | 0 <= i < |ref| ensures Abs(ref[i] - q[i]) <= e {
      NearScalar(p.kp, h, q[i], ref[i], e);
    }
    DistLeast(q, ref, e);
    DistTriangle(q, ref, tgt);
  }

  lemma LeadOf(kp: real, h: Held) returns (e: real)
    requires kp > 0.0 && h.u >= 0.0 && h.off >= 0.0
    ensures e == h.u / kp + h.off >= 0.0 && Times(kp, e) == h.u + Times(kp, h.off)
  {
    QuotientBoundBelow(0.0, h.u, kp);
    e := h.u / kp + h.off;
    TimesAdds(kp, h.u / kp, h.off, e);
    assert h.u / kp * kp == h.u;
  }

  lemma WithinLead(kp: real, h: Held, lead: real)
    requires kp > 0.0 && Most(kp, h) <= lead * kp
    ensures h.u / kp + 2.0 * h.off <= lead
  {
    var x := h.u / kp;
    assert x * kp == h.u;
    var e := x + 2.0 * h.off;
    assert kp * e == kp * x + 2.0 * (kp * h.off);
    if e > lead {
      ScaleStrictly(kp, lead, e);
      assert false;
    }
  }

  /** The pose before pass k moved it. */
  ghost function Was(p: Params, fs: seq<Feed>, k: nat): Vec
    requires FeedsOk(fs) && k < |fs|
  {
    if k > 0 && After(p, None, fs, k).Some? then After(p, None, fs, k).value.q
    else if fs[k].target.Some? then fs[k].target.value else []
  }

  /** After the pass on target k every joint is in lag. */
  lemma {:induction false} StaysInLag(p: Params, h: Held, du: real, fs: seq<Feed>, refs: seq<Vec>, k: nat)
    requires Kept(p, h) && PerPass(h.u, h.dt, du) && FeedsOk(fs) && HeldFeed(fs, refs, h, du) && k < |fs|
    ensures After(p, None, fs, k + 1).Some?
    ensures InLag(p, h, Was(p, fs, k), After(p, None, fs, k + 1).value, refs[k], fs[k].target.value)
    ensures k > 0 ==> After(p, None, fs, k).Some? && NearlyThere(p.kp, h, After(p, None, fs, k).value.q, refs[k])
                      && AllIdle(p, After(p, None, fs, k).value, fs[k].target.value, h.dt)
  {
    hide Kept, PerPass, InLag, NearlyThere, Dist, AllIdle, Pass;
    var tgt := fs[k].target.value;
    if k == 0 {
      RestIsLag(p, h, refs[0], tgt);
      FirstPass(p, fs[0]);
    } else {
      var j := k - 1;
      StaysInLag(p, h, du, fs, refs, j);
      var s := After(p, None, fs, k).value;
      LagShaped(p, h, Was(p, fs, j), s, refs[j], fs[j].target.value);
      StepFollows(p, h, du, Was(p, fs, j), s, refs[j], fs[j].target.value, refs[k], tgt);
      NearMeansReachable(p, h, s.q, refs[k], tgt);
      NextPass(p, s, fs[k]);
    }
  }

  lemma {:induction false} FirstPass(p: Params, f: Feed)
    requires FeedOk(f) && f.target.Some? && f.live
    ensures Pass(p, None, f).0 == Some(AtRest(f.target.value))
  {
  }

  lemma {:induction false} NextPass(p: Params, s: Track, f: Feed)
    requires FeedOk(f) && f.target.Some? && f.live && f.vff.None? && Shaped(s, |f.target.value|)
    requires Dist(s.q, f.target.value) <= p.lead
    ensures Pass(p, Some(s), f).0 == Some(Limited(p, s, f.target.value, f.dt, None))
  {
    hide Limited, Dist;
  }

  lemma {:induction false} LagShaped(p: Params, h: Held, was: Vec, s: Track, ref: Vec, tgt: Vec)
    requires InLag(p, h, was, s, ref, tgt)
    ensures Shaped(s, |tgt|)
  {
  }

  /**
   The lag theorem: starting at rest on the target, at every pass the published pose is within u / kp + off of
   the reference, and within off more of the target, so that no resync ever fires, and neither the brake, nor
   the velocity limit, nor the acceleration limit changes any joint's step.
   */
  lemma {:induction false} HeldLagBound(p: Params, h: Held, du: real, fs: seq<Feed>, refs: seq<Vec>, k: nat)
    requires Kept(p, h) && PerPass(h.u, h.dt, du) && FeedsOk(fs) && HeldFeed(fs, refs, h, du) && 0 < k < |fs|
    ensures var s, tgt := After(p, None, fs, k), fs[k].target.value;
            && s.Some? && AllIdle(p, s.value, tgt, h.dt) && |s.value.q| == |refs[k]|
            && Dist(s.value.q, refs[k]) <= Behind(p, h) && Dist(s.value.q, tgt) <= Behind(p, h) + h.off
            && !OutOfReach(p, s, tgt)
  {
    assert p.kp > 0.0;
    StaysInLag(p, h, du, fs, refs, k);
    hide Kept, PerPass, InLag, NearlyThere, Dist, AllIdle, After;
    NearMeansReachable(p, h, After(p, None, fs, k).value.q, refs[k], fs[k].target.value);
  }

  /** Every pass sees a live target without feed-forward, at most du from the previous one. */
  ghost predicate SlowFeed(fs: seq<Feed>, dt: real, du: real) {
    && (forall k | 0 <= k < |fs| :: fs[k].target.Some? && fs[k].vff.None? && fs[k].live && fs[k].dt == dt)
    && forall k | 0 < k < |fs| ::
         |fs[k].target.value| == |fs[k - 1].target.value| && Dist(fs[k - 1].target.value, fs[k].target.value) <= du
  }

  function Targets(fs: seq<Feed>): (refs: seq<Vec>)
    requires forall k | 0 <= k < |fs| :: fs[k].target.Some?
    ensures |refs| == |fs| && forall k | 0 <= k < |fs| :: refs[k] == fs[k].target.value
  {
    seq(|fs|, k requires 0 <= k < |fs| => fs[k].target.value)
  }

  lemma {:induction false} SlowIsHeld(fs: seq<Feed>, u: real, dt: real, du: real)
    requires SlowFeed(fs, dt, du)
    ensures HeldFeed(fs, Targets(fs), Held(u, 0.0, du, dt), du)
  {
    hide Dist;
    forall k | 0 <= k < |fs| ensures Dist(fs[k].target.value, fs[k].target.value) <= 0.0 {
      DistZero(fs[k].target.value, fs[k].target.value);
    }
    forall j, k | 0 <= j && k == j + 1 && k < |fs|
      ensures |fs[k].target.value| == |fs[j].target.value| && Dist(fs[j].target.value, fs[k].target.value) <= du
    {
      assert fs[k - 1] == fs[j];
    }
  }

  /** When the target itself is the reference: the published pose is within u / kp of it. */
  lemma {:induction false} LagBound(p: Params, u: real, dt: real, du: real, fs: seq<Feed>, k: nat)
    requires Followable(p, u, dt) && PerPass(u, dt, du) && FeedsOk(fs) && SlowFeed(fs, dt, du) && 0 < k < |fs|
    ensures var s, tgt := After(p, None, fs, k), fs[k].target.value;
            && s.Some? && AllIdle(p, s.value, tgt, dt) && |s.value.q| == |tgt|
            && Dist(s.value.q, tgt) <= u / p.kp && !OutOfReach(p, s, tgt)
  {
    hide Kept, HeldFeed, Dist, AllIdle, After;
    FollowableKept(p, u, dt, du);
    SlowIsHeld(fs, u, dt, du);
    HeldLagBound(p, Held(u, 0.0, du, dt), du, fs, Targets(fs), k);
  }

  /** The homing speed: the one configured, clamped to what the shaper's speed limit and lead allow. */
  function HomeSpeed(p: Params, homeVel: real): real {
    Min(homeVel, Min(0.9 * p.vMax, 0.5 * p.lead * p.kp))
  }

  /**
   The clamp takes off only what keeps the speed within 0.9 of the limit and half the lead's worth of gain. That
   takes care of the speed limit and of the lead, whatever speed is configured; what it leaves open
   is that one pass does not overshoot and that the acceleration limit allows the speed to be given up in time.
   */
  lemma ClampFollows(p: Params, homeVel: real, dt: real)
    requires p.Valid() && homeVel >= 0.0
    ensures var v, fast, far := HomeSpeed(p, homeVel), 0.9 * p.vMax, p.lead * p.kp / 2.0;
            v <= homeVel && v <= fast && v <= far && (v == homeVel || v == fast || v == far)
    ensures Followable(p, HomeSpeed(p, homeVel), dt) <==>
              p.kp > 0.0 && dt > 0.0 && p.kp * dt <= 1.0 && 2.0 * (p.kp * HomeSpeed(p, homeVel)) <= p.aMax
  {
    if p.kp > 0.0 {
      var most := 0.5 * p.lead * p.kp;
      assert most >= 0.0;
    }
  }

  /** The shipped values: 0.3 rad/s, kp 20, 12 rad/s^2, 1.5 rad/s, 0.15 rad, 250 Hz; the clamp does not bite. */
  lemma ShippedValuesFollow(p: Params)
    requires p.Valid() && p.rate == 250.0 && p.vMax == 1.5 && p.aMax == 12.0 && p.kp == 20.0 && p.lead == 0.15
    ensures HomeSpeed(p, 0.3) == 0.3 && Followable(p, 0.3, 1.0 / p.rate)
  {
    ClampFollows(p, 0.3, 1.0 / p.rate);
  }

  /** A target commanded every T at a speed u and held in between, read at passes no longer than T. */
  function Ticked(u: real, T: real, dt: real): Held {
    Held(u, u * T, u * T, dt)
  }

  /**
   The shipped gains under the shipped 100 Hz commands: followed with all limits idle exactly up to 2/13 rad/s.
   At the shipped 0.3 rad/s the very first command of a ramp asks for more than the acceleration limit grants.
   */
  lemma ShippedTicksFollow(p: Params, u: real)
    requires p.Valid() && p.rate == 250.0 && p.vMax == 1.5 && p.aMax == 12.0 && p.kp == 20.0 && p.lead == 0.15
    ensures Kept(p, Ticked(u, 0.01, 1.0 / p.rate)) <==> 0.0 <= u <= 2.0 / 13.0
    ensures !LimitsIdle(p, 0.3 * 0.01, 0.0, 1.0 / p.rate)
  {
    hide Brake;
    var h := Ticked(u, 0.01, 1.0 / p.rate);
    assert h == Held(u, 0.01 * u, 0.01 * u, 0.004);
    assert Most(p.kp, h) == 1.4 * u;
    assert Times(p.kp, h.dt) == 0.08 && Times(p.kp, h.jump) == 0.2 * u && Times(0.08, 1.4 * u) == 0.112 * u;
    assert Times(p.kp, 1.4 * u) == 28.0 * u && Times(p.aMax, h.dt) == 0.048;
  }
}
