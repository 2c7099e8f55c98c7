// The output shaper: follows the latest joint target under per-joint velocity and acceleration limits,
// and jumps onto it when it has fallen too far behind.
module CommandShaper {
  import opened Options
  import opened JointSpace

  datatype Params = Params(
    rate: real, vMax: real, aMax: real, kp: real, ffTau: real, lead: real, stale: real, sqrt: real -> real)
  {
    /** Positive limits, and a square root on the non-negative reals. */
    ghost predicate Valid() {
      && rate > 0.0 && vMax >= 0.0 && aMax >= 0.0 && kp >= 0.0 && lead >= 0.0
      && forall x: real | x >= 0.0 :: sqrt(x) >= 0.0 && sqrt(x) * sqrt(x) == x
    }
  }

  /** What the shaper remembers between samples: the published pose, its velocity, the smoothed feed-forward. */
  datatype Track = Track(q: Vec, v: Vec, ff: Vec)

  predicate Shaped(s: Track, dim: nat) {
    |s.q| == |s.v| == |s.ff| == dim
  }

  // ---------------------------------------------------------------------- one joint's step

  /** The fastest approach from which the acceleration limit can still stop at the target. */
  function Brake(p: Params, err: real): real {
    p.sqrt(2.0 * p.aMax * Abs(err))
  }

  /** Feed-forward plus the proportional term cut to the brake b, all cut to the velocity limit. */
  function Toward(kp: real, err: real, b: real, ff: real, vMax: real): real {
    Clip(ff + Clip(kp * err, -b, b), -vMax, vMax)
  }

  /** From v toward d, as far as the acceleration limit allows in dt. */
  function Slew(v: real, d: real, aMax: real, dt: real): real {
    v + Clip(d - v, -(aMax * dt), aMax * dt)
  }

  function DesiredVel(p: Params, err: real, ff: real): real {
    Toward(p.kp, err, Brake(p, err), ff, p.vMax)
  }

  function NextVel(p: Params, v: real, desired: real, dt: real): real {
    Slew(v, desired, p.aMax, dt)
  }

  function NextPos(q: real, v: real, dt: real): real {
    q + v * dt
  }

  function NextFf(p: Params, ff: real, vff: real, dt: real): real {
    if p.ffTau > 0.0 then ff + Min(1.0, dt / p.ffTau) * (vff - ff) else vff
  }

  // ------------------------------------------------------------------------ one sample

  /** The feed-forward in force for this sample; no feed-forward resets it. */
  function FeedForward(p: Params, ff: Vec, vff: Option<Vec>, dt: real): (f: Vec)
    requires vff.Some? ==> |vff.value| == |ff|
    ensures |f| == |ff|
  {
    if vff.None? then seq(|ff|, _ => 0.0)
    else seq(|ff|, i requires 0 <= i < |ff| => NextFf(p, ff[i], vff.value[i], dt))
  }

  /** At rest on the target: the first sample, a change of joint count, and a resync all start like this. */
  function AtRest(tgt: Vec): (s: Track)
    ensures Shaped(s, |tgt|)
  {
    Track(tgt, seq(|tgt|, _ => 0.0), seq(|tgt|, _ => 0.0))
  }

  /** One limited step of every joint. */
  function Limited(p: Params, s: Track, tgt: Vec, dt: real, vff: Option<Vec>): (s': Track)
    requires Shaped(s, |tgt|) && (vff.Some? ==> |vff.value| == |tgt|)
    ensures Shaped(s', |tgt|)
    ensures forall i | 0 <= i < |tgt| :: s'.v[i] == NextVel(p, s.v[i], DesiredVel(p, tgt[i] - s.q[i], s'.ff[i]), dt)
    ensures forall i | 0 <= i < |tgt| :: s'.q[i] == NextPos(s.q[i], s'.v[i], dt)
    ensures s'.ff == FeedForward(p, s.ff, vff, dt)
  {
    var ff := FeedForward(p, s.ff, vff, dt);
    var v := seq(|tgt|, i requires 0 <= i < |tgt| => NextVel(p, s.v[i], DesiredVel(p, tgt[i] - s.q[i], ff[i]), dt));
    var q := seq(|tgt|, i requires 0 <= i < |tgt| => NextPos(s.q[i], v[i], dt));
    Track(q, v, ff)
  }

  function Step(p: Params, s: Option<Track>, tgt: Vec, dt: real, vff: Option<Vec>): (s': Track)
    requires s.Some? ==> Shaped(s.value, |s.value.q|)
    requires vff.Some? ==> |vff.value| == |tgt|
    ensures Shaped(s', |tgt|)
  {
    if s.None? || |s.value.q| != |tgt| then AtRest(tgt) else Limited(p, s.value, tgt, dt, vff)
  }

  /** The target has run too far ahead of what is being published. */
  predicate OutOfReach(p: Params, s: Option<Track>, tgt: Vec) {
    s.Some? && |s.value.q| == |tgt| && Dist(s.value.q, tgt) > p.lead
  }

  datatype Feed = Feed(target: Option<Vec>, vff: Option<Vec>, live: bool, dt: real)

  predicate FeedOk(f: Feed) {
    f.target.Some? && f.vff.Some? ==> |f.vff.value| == |f.target.value|
  }

  /** One pass of the output loop: the new memory, and what was published, if anything. */
  function Pass(p: Params, s: Option<Track>, f: Feed): (r: (Option<Track>, Option<Vec>))
    requires (s.Some? ==> Shaped(s.value, |s.value.q|)) && FeedOk(f)
    ensures r.0.Some? ==> Shaped(r.0.value, |r.0.value.q|)
    ensures r.1.Some? ==> r.0.Some? && r.1.value == r.0.value.q
  {
    if f.target.None? then (s, None)
    else if !f.live then
      (if s.None? then None else Some(Track(s.value.q, seq(|s.value.q|, _ => 0.0), seq(|s.value.q|, _ => 0.0))), None)
    else
      var from := if OutOfReach(p, s, f.target.value) then None else s;
      var s' := Step(p, from, f.target.value, f.dt, f.vff);
      (Some(s'), Some(s'.q))
  }

  function ClampDt(p: Params, elapsed: real): real
    requires p.rate > 0.0
  {
    Min(Max(elapsed, 0.25 * (1.0 / p.rate)), 4.0 * (1.0 / p.rate))
  }

  class Shaper {
    const p: Params
    var target: Option<Vec>
    var vff: Option<Vec>
    var tTarget: real
    var q: Option<Vec>
    var v: Option<Vec>
    var ffF: Option<Vec>
    var snaps: nat
    var tLast: real

    ghost predicate Valid()
      reads this
    {
      && p.Valid()
      && (q.None? ==> v.None? && ffF.None?)
      && (q.Some? ==> v.Some? && ffF.Some? && |v.value| == |ffF.value| == |q.value|)
      && (target.Some? && vff.Some? ==> |vff.value| == |target.value|)
    }

    ghost function View(): (s: Option<Track>)
      requires Valid()
      reads this
    {
      if q.None? then None else Some(Track(q.value, v.value, ffF.value))
    }

    constructor (p: Params, now: real)
      requires p.Valid()
      ensures Valid() && this.p == p && View() == None && target == None && snaps == 0 && tLast == now
    {
      this.p := p;
      target, vff, tTarget, q, v, ffF, snaps, tLast := None, None, 0.0, None, None, None, 0, now;
    }

    method SetTarget(vec: Vec, ff: Option<Vec>, now: real)
      requires Valid() && (ff.Some? ==> |ff.value| == |vec|)
      modifies this
      ensures Valid() && View() == old(View()) && snaps == old(snaps) && tLast == old(tLast)
      ensures target == Some(vec) && vff == ff && tTarget == now
    {
      target, vff, tTarget := Some(vec), ff, now;
    }

    /** _step. */
    method DoStep(tgt: Vec, dt: real, ff: Option<Vec>) returns (out: Vec)
      requires Valid() && (ff.Some? ==> |ff.value| == |tgt|)
      modifies this`q, this`v, this`ffF
      ensures Valid() && View() == Some(Step(p, old(View()), tgt, dt, ff)) && out == View().value.q
    {
      if q.None? || |q.value| != |tgt| {
        var rest := AtRest(tgt);
        q, v, ffF := Some(rest.q), Some(rest.v), Some(rest.ff);
        return tgt;
      }
      hide NextVel, DesiredVel, NextPos;
      var q0, v0 := q.value, v.value;
      var f := FeedForward(p, ffF.value, ff, dt);
      ffF := Some(f);
      var vel := seq(|tgt|, i requires 0 <= i < |tgt| => NextVel(p, v0[i], DesiredVel(p, tgt[i] - q0[i], f[i]), dt));
      v := Some(vel);
      out := seq(|tgt|, i requires 0 <= i < |tgt| => NextPos(q0[i], vel[i], dt));
      q := Some(out);
      ghost var want := Limited(p, old(View()).value, tgt, dt, ff);
      assert vel == want.v && out == want.q;
    }

    /** One pass of _run, at clock reading `now`. */
    method RunOnce(now: real) returns (published: Option<Vec>)
      requires Valid()
      modifies this
      ensures Valid() && tLast == now
      ensures target == old(target) && vff == old(vff) && tTarget == old(tTarget)
      ensures var f := Feed(old(target), old(vff), now - old(tTarget) < p.stale, ClampDt(p, now - old(tLast)));
              && (View(), published) == Pass(p, old(View()), f)
              && snaps == old(snaps) + if f.target.Some? && f.live && OutOfReach(p, old(View()), f.target.value) then 1 else 0
    {
      var dt := ClampDt(p, now - tLast);
      tLast := now;
      if target.None? {
        return None;
      }
      var tgt := target.value;
      if now - tTarget >= p.stale {
        if q.Some? {
          v, ffF := Some(seq(|q.value|, _ => 0.0)), Some(seq(|q.value|, _ => 0.0));
        }
        return None;
      }
      if q.Some? && |q.value| == |tgt| && Dist(q.value, tgt) > p.lead {
        snaps := snaps + 1;
        q, v, ffF := None, None, None;
      }
      var out := DoStep(tgt, dt, vff);
      published := Some(out);
    }
  }
}
