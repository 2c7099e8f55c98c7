// The follower's target feed: a target that moves along one timed segment after another while a checked
// polyline is executed, and how fast it can move.
module SegmentFeed {
  import opened Options
  import opened JointSpace
  import opened EdgeCheck
  import opened Environment

  /** A timed segment: where the target was at t0, where it goes, and in how long. */
  datatype Seg = Seg(from: Vec, to: Vec, t0: real, span: real)

  ghost predicate SegOk(g: Seg, dim: nat) {
    |g.from| == |g.to| == dim
  }

  function Progress(g: Seg, now: real): real {
    if g.span <= 0.0 then 1.0 else Min(1.0, (now - g.t0) / g.span)
  }

  /** _segment_value. */
  function ValueAt(g: Seg, now: real): (q: Vec)
    requires |g.from| == |g.to|
    ensures |q| == |g.from|
  {
    Lerp(g.from, g.to, Progress(g, now))
  }

  /** The target has arrived. */
  predicate Arrived(g: Seg, now: real) {
    Progress(g, now) >= 1.0
  }

  /** Within the segment the target covers no more than v per second; a segment of no length stands still. */
  ghost predicate Paced(g: Seg, v: real)
    requires |g.from| == |g.to|
  {
    if g.span <= 0.0 then g.from == g.to else Within(Dist(g.from, g.to), v, g.span)
  }

  ghost predicate Within(d: real, v: real, t: real) {
    d <= v * t
  }

  /** A leg of an executed polyline: between the given poses, at the pace. */
  ghost predicate LegOk(g: Seg, from: Vec, to: Vec, v: real, dim: nat) {
    SegOk(g, dim) && g.from == from && g.to == to && Paced(g, Pace(v)) && NotSlower(g, Pace(v))
  }

  /** A leg is given no more time than the pace takes, or else 0.02, and never less than that. */
  ghost predicate NotSlower(g: Seg, u: real)
    requires |g.from| == |g.to|
  {
    g.span >= 0.02 && (g.span == 0.02 || u * g.span == Dist(g.from, g.to))
  }

  /** The time of a leg in plain terms: its length at v, or at 0.000001 if v is less; but 0.02 if that is longer. */
  lemma LegSays(g: Seg, from: Vec, to: Vec, v: real, dim: nat)
    requires LegOk(g, from, to, v, dim)
    ensures g.span >= 0.02
    ensures v >= 0.000001 ==> Dist(from, to) <= v * g.span && (g.span == 0.02 || v * g.span == Dist(from, to))
    ensures v < 0.000001 ==> Dist(from, to) <= 0.000001 * g.span && (g.span == 0.02 || 0.000001 * g.span == Dist(from, to))
  {
    hide Dist;
  }

  /** The first legs of the polyline start -> pts[0] -> pts[1] .., each from where the one before it ended. */
  ghost predicate LegsOk(legs: seq<Seg>, start: Vec, pts: seq<Vec>, v: real, dim: nat) {
    |legs| <= |pts| && forall k | 0 <= k < |legs| :: LegOk(legs[k], Before(start, pts, k), pts[k], v, dim)
  }

  /** Where leg k starts. */
  function Before(start: Vec, pts: seq<Vec>, k: nat): Vec
    requires k <= |pts|
  {
    if k == 0 then start else pts[k - 1]
  }

  lemma {:induction false} LegsMore(legs: seq<Seg>, leg: Seg, start: Vec, pts: seq<Vec>, v: real, dim: nat)
    requires LegsOk(legs, start, pts, v, dim) && |legs| < |pts|
    requires LegOk(leg, Before(start, pts, |legs|), pts[|legs|], v, dim)
    ensures LegsOk(legs + [leg], start, pts, v, dim)
  {
    hide LegOk, Before;
  }

  /**
   What the follower walks: the path, preceded by the measured pose when a target is set and stands more than
   the lead away from the arm.
   */
  function Walked(path: seq<Vec>, target: Option<Vec>, measured: Vec, lead: real): seq<Vec>
    requires target.Some? ==> |target.value| == |measured|
  {
    if target.Some? && Dist(target.value, measured) > lead then [measured] + path else path
  }

  /** max(v, 1e-6). */
  function Pace(v: real): (u: real)
    ensures u > 0.0 && u >= v
  {
    Max(v, 0.000001)
  }

  /** max(d / max(v, 1e-6), 0.02): the time a leg is given. */
  function LegTime(d: real, v: real): (t: real)
    ensures t >= 0.02 && d / Pace(v) <= t
    ensures t == 0.02 || t == d / Pace(v)
  {
    Max(d / Pace(v), 0.02)
  }

  lemma LegFits(d: real, u: real, t: real)
    requires u > 0.0 && d / u <= t
    ensures Within(d, u, t) && (t == d / u ==> u * t == d)
  {
  }

  lemma LegPaced(from: Vec, to: Vec, t0: real, v: real)
    requires |from| == |to|
    ensures var g := Seg(from, to, t0, LegTime(Dist(from, to), v)); Paced(g, Pace(v)) && NotSlower(g, Pace(v))
  {
    hide Dist, Pace, LegTime, Within;
    LegFits(Dist(from, to), Pace(v), LegTime(Dist(from, to), v));
  }

  // -------------------------------------------------------------------- one segment's motion

  /** On its way the target has covered the share of the segment that the time gone by is of its length; then it stands. */
  lemma SegmentSays(g: Seg, t: real, i: nat)
    requires |g.from| == |g.to| && i < |g.from|
    ensures t >= g.t0 + g.span || g.span <= 0.0 ==> Arrived(g, t) && ValueAt(g, t)[i] == g.to[i]
    ensures g.span > 0.0 && t < g.t0 + g.span ==>
              !Arrived(g, t) && g.span * (ValueAt(g, t)[i] - g.from[i]) == (t - g.t0) * (g.to[i] - g.from[i])
  {
    if g.span > 0.0 {
      var s := (t - g.t0) / g.span;
      assert s * g.span == t - g.t0;
      if t < g.t0 + g.span {
        QuotientBound(t - g.t0, 1.0, g.span);
        assert s != 1.0;
        OfSpan(s, g.span, t - g.t0, g.to[i] - g.from[i]);
      } else {
        QuotientBoundBelow(1.0, t - g.t0, g.span);
      }
    }
  }

  lemma OfSpan(s: real, span: real, x: real, d: real)
    requires s * span == x
    ensures span * (s * d) == x * d
  {
  }

  lemma ArrivedStays(g: Seg, t: real, now: real)
    requires |g.from| == |g.to| && Arrived(g, t) && t <= now
    ensures Arrived(g, now) && ValueAt(g, now) == g.to
  {
    hide Lerp, Blend;
    LerpEnds(g.from, g.to);
    if g.span > 0.0 {
      LaterQuotient(t - g.t0, now - g.t0, g.span);
    }
  }

  lemma LaterQuotient(x: real, y: real, m: real)
    requires m > 0.0 && x <= y && Min(1.0, x / m) >= 1.0
    ensures y / m >= 1.0
  {
    QuotientBound(x, y / m, m) by { assert y / m * m == y; }
  }

  lemma ValueAtStart(g: Seg)
    requires |g.from| == |g.to| && (g.span <= 0.0 ==> g.from == g.to)
    ensures ValueAt(g, g.t0) == g.from
  {
  }

  lemma ProgressStep(g: Seg, t: real, now: real)
    requires g.span > 0.0 && t <= now
    ensures 0.0 <= Progress(g, now) - Progress(g, t)
    ensures (Progress(g, now) - Progress(g, t)) * g.span <= now - t
  {
  }

  lemma Covers(p: real, span: real, d: real, v: real, dt: real, pd: real)
    requires 0.0 <= p && p * span <= dt && Within(d, v, span) && ScaledBy(p, d, pd) && v >= 0.0
    ensures Within(pd, v, dt)
  {
  }

  /** Along one segment the target moves no faster than its pace. */
  lemma SegmentSpeed(g: Seg, v: real, t: real, now: real)
    requires |g.from| == |g.to| && Paced(g, v) && v >= 0.0 && t <= now
    ensures Within(Dist(ValueAt(g, t), ValueAt(g, now)), v, now - t)
  {
    hide Lerp, Dist, Within, ScaledBy, Progress;
    if g.span <= 0.0 {
      StandsStill(g, v, t, now);
    } else {
      var s, s' := Progress(g, t), Progress(g, now);
      ProgressStep(g, t, now);
      LerpDist(g.from, g.to, s, s');
      var p := s' - s;
      assert Abs(s' - s) == p;
      Covers(p, g.span, Dist(g.from, g.to), v, now - t, Dist(ValueAt(g, t), ValueAt(g, now)));
    }
  }

  lemma StandsStill(g: Seg, v: real, t: real, now: real)
    requires |g.from| == |g.to| && g.span <= 0.0 && v >= 0.0 && t <= now
    ensures Within(Dist(ValueAt(g, t), ValueAt(g, now)), v, now - t)
  {
    DistZero(ValueAt(g, t), ValueAt(g, now));
    NonNegative(v, now - t);
  }

  // --------------------------------------------------------------------- the whole feed

  /** Where the target is at time t, for segments set one after another. */
  ghost function FeedAt(hs: seq<Seg>, t: real, dim: nat): (q: Vec)
    requires hs != [] && forall k | 0 <= k < |hs| :: SegOk(hs[k], dim)
    ensures |q| == dim
  {
    var g := hs[|hs| - 1];
    assert SegOk(g, dim);
    if |hs| == 1 || t >= g.t0 then ValueAt(g, t) else FeedAt(hs[..|hs| - 1], t, dim)
  }

  /** Every segment starts where the target is when it is set, and keeps the pace. */
  ghost predicate Chained(hs: seq<Seg>, v: real, dim: nat) {
    && (forall k | 0 <= k < |hs| :: SegOk(hs[k], dim) && Paced(hs[k], v))
    && (|hs| > 1 ==>
          && Chained(hs[..|hs| - 1], v, dim)
          && hs[|hs| - 2].t0 <= hs[|hs| - 1].t0
          && hs[|hs| - 1].from == FeedAt(hs[..|hs| - 1], hs[|hs| - 1].t0, dim))
  }

  lemma WithinAdds(a: real, b: real, c: real, v: real, s: real, t: real)
    requires Within(a, v, s) && Within(b, v, t) && c <= a + b
    ensures Within(c, v, s + t)
  {
  }

  /**
   Over any stretch of time, across any number of segments, the target moves no faster than the pace: read at
   every output sample, it meets the condition under which the output shaper provably keeps up.
   */
  lemma {:induction false} FeedNeverFaster(hs: seq<Seg>, v: real, dim: nat, t: real, now: real)
    requires hs != [] && Chained(hs, v, dim) && v >= 0.0 && hs[0].t0 <= t <= now
    ensures Within(Dist(FeedAt(hs, t, dim), FeedAt(hs, now, dim)), v, now - t)
  {
    hide Dist, Within, ValueAt, Paced;
    var n := |hs| - 1;
    var g := hs[n];
    if n == 0 || t >= g.t0 {
      SegmentSpeed(g, v, t, now);
    } else if now < g.t0 {
      FeedNeverFaster(hs[..n], v, dim, t, now);
    } else {
      FeedNeverFaster(hs[..n], v, dim, t, g.t0);
      SegmentSpeed(g, v, g.t0, now);
      PacedStart(g, v);
      DistTriangle(FeedAt(hs, t, dim), g.from, FeedAt(hs, now, dim));
      WithinAdds(Dist(FeedAt(hs, t, dim), g.from), Dist(g.from, FeedAt(hs, now, dim)),
        Dist(FeedAt(hs, t, dim), FeedAt(hs, now, dim)), v, g.t0 - t, now - g.t0);
    }
  }

  lemma PacedStart(g: Seg, v: real)
    requires |g.from| == |g.to| && Paced(g, v)
    ensures ValueAt(g, g.t0) == g.from
  {
    ValueAtStart(g);
  }

  /** A new segment set from an arrived target continues the feed. */
  lemma {:induction false} ChainOn(hs: seq<Seg>, g: Seg, v: real, dim: nat, t: real)
    requires hs != [] && Chained(hs, v, dim) && SegOk(g, dim) && Paced(g, v)
    requires Arrived(hs[|hs| - 1], t) && hs[|hs| - 1].t0 <= t <= g.t0 && g.from == hs[|hs| - 1].to
    ensures Chained(hs + [g], v, dim)
  {
    hide Paced, ValueAt, Arrived;
    ArrivedStays(hs[|hs| - 1], t, g.t0);
    assert (hs + [g])[..|hs|] == hs;
  }

  /**
   A freeze reads the target at one moment and sets it a moment later: the target is put back along its own
   segment by exactly what it moved in between, nothing only if it had arrived, was set that moment or has
   nowhere to go, and from then on stands still.
   */
  lemma FreezeStepsBack(g: Seg, v: real, at: real, t: real, now: real)
    requires |g.from| == |g.to| && Paced(g, v) && v >= 0.0 && at <= t <= now
    ensures var parked := Seg(ValueAt(g, at), ValueAt(g, at), t, 0.0);
            var back := Dist(ValueAt(parked, t), ValueAt(g, t));
            && Arrived(parked, now) && ValueAt(parked, now) == ValueAt(g, at)
            && ScaledBy(Progress(g, t) - Progress(g, at), Dist(g.from, g.to), back) && Within(back, v, t - at)
            && (back == 0.0 <==> Arrived(g, at) || at == t || g.from == g.to)
  {
    hide Lerp, Blend, Dist, Within, Paced, Progress, ScaledBy, Abs, Arrived;
    var cur := ValueAt(g, at);
    LerpEnds(cur, cur);
    ParkedStands(cur, t, now);
    SegmentSpeed(g, v, at, t);
    var p, q := Progress(g, at), Progress(g, t);
    ProgressGrows(g, at, t);
    LerpDist(g.from, g.to, p, q);
    DistZero(g.from, g.to);
    Displaced(p, q, Dist(g.from, g.to), Dist(cur, ValueAt(g, t)));
  }

  lemma ParkedStands(cur: Vec, t: real, now: real)
    ensures var parked := Seg(cur, cur, t, 0.0);
            Arrived(parked, t) && Arrived(parked, now) && ValueAt(parked, now) == cur && ValueAt(parked, t) == cur
  {
    hide Lerp, Blend;
    LerpEnds(cur, cur);
  }

  /** Progress never falls, and rises unless the segment has arrived. */
  lemma ProgressGrows(g: Seg, t: real, now: real)
    requires t <= now
    ensures Progress(g, t) <= Progress(g, now)
    ensures Progress(g, t) == Progress(g, now) <==> Arrived(g, t) || t == now
  {
    if g.span > 0.0 {
      QuotientGrows(t - g.t0, now - g.t0, g.span);
    }
  }

  lemma QuotientGrows(x: real, y: real, m: real)
    requires m > 0.0 && x <= y
    ensures x / m <= y / m && (x / m == y / m <==> x == y)
  {
    assert x / m * m == x && y / m * m == y;
    QuotientBound(x, y / m, m);
  }

  lemma Displaced(p: real, q: real, d: real, e: real)
    requires p <= q && d >= 0.0 && ScaledBy(Abs(q - p), d, e)
    ensures ScaledBy(q - p, d, e) && (e == 0.0 <==> p == q || d == 0.0)
  {
  }

  // ------------------------------------------------------------------------- the follower

  datatype Status = Done | Timeout | Gate | Disconnected

  /** What a wait meets besides the clock, by clock reading: the link, and the measured pose's margin. */
  datatype Plant = Plant(connected: nat -> bool, measured: nat -> Vec, margin: Margin)

  /** A wait: its first clock reading, and how many passes went by. */
  datatype Wait = Wait(from: nat, passes: nat)

  class Follower {
    const w: World
    const plant: Plant
    const dim: nat
    var seg: Option<Seg>
    ghost var history: seq<Seg>

    ghost predicate Valid()
      reads this, w
    {
      && w.Ticking()
      && (forall n: nat :: |plant.measured(n)| == dim)
      && (forall k | 0 <= k < |history| :: SegOk(history[k], dim))
      && (seg.None? <==> history == [])
      && (seg.Some? ==> history[|history| - 1] == seg.value && seg.value.t0 <= w.clock(w.readings))
    }

    /** The feed stands still: nothing was ever set, or the last segment has arrived. */
    ghost predicate Idle()
      requires Valid()
      reads this, w
    {
      seg.Some? ==> Arrived(seg.value, w.clock(w.readings))
    }

    // A wait from reading r on takes two readings in every pass, and a third when it freezes the feed.

    ghost function LastLook(r: nat, j: nat): real
      decreases j, 0
    {
      if j == 0 then 0.0 else if LooksAt(r, j - 1) then w.clock(r + 2 * (j - 1) + 1) else LastLook(r, j - 1)
    }

    /** Pass j looks at the measured pose: none has for 0.05. */
    ghost predicate LooksAt(r: nat, j: nat)
      decreases j, 1
    {
      w.clock(r + 2 * j + 1) - LastLook(r, j) >= 0.05
    }

    /** The pose measured in pass j has the gate's floor at the gate's scale. */
    ghost predicate ClearAt(r: nat, j: nat, gate: (real, real)) {
      plant.margin(plant.measured(r + 2 * j + 2), gate.1) >= gate.0
    }

    /** Pass j goes by: connected, under way, on time, and clear if it looks. */
    ghost predicate GoesBy(g: Seg, r: nat, j: nat, deadline: Option<real>, gate: Option<(real, real)>)
      requires SegOk(g, dim)
    {
      && plant.connected(r + 2 * j) && !Arrived(g, w.clock(r + 2 * j))
      && (deadline.Some? ==> w.clock(r + 2 * j + 1) < deadline.value)
      && (gate.Some? && LooksAt(r, j) ==> ClearAt(r, j, gate.value))
    }

    /** How pass n ends the wait. */
    ghost predicate EndsAs(st: Status, g: Seg, r: nat, n: nat, deadline: Option<real>, gate: Option<(real, real)>)
      requires SegOk(g, dim)
    {
      match st
      case Disconnected => !plant.connected(r + 2 * n)
      case Done => plant.connected(r + 2 * n) && Arrived(g, w.clock(r + 2 * n))
      case Timeout =>
        && plant.connected(r + 2 * n) && !Arrived(g, w.clock(r + 2 * n))
        && deadline.Some? && w.clock(r + 2 * n + 1) >= deadline.value
      case Gate =>
        && plant.connected(r + 2 * n) && !Arrived(g, w.clock(r + 2 * n))
        && (deadline.Some? ==> w.clock(r + 2 * n + 1) < deadline.value)
        && gate.Some? && LooksAt(r, n) && !ClearAt(r, n, gate.value)
    }

    /** A wait from reading r on: n passes go by, and the next one ends it. */
    ghost predicate Waits(st: Status, g: Seg, r: nat, n: nat, deadline: Option<real>, gate: Option<(real, real)>) {
      SegOk(g, dim) && GoOn(g, r, n, deadline, gate) && EndsAs(st, g, r, n, deadline, gate)
    }

    ghost predicate GoOn(g: Seg, r: nat, n: nat, deadline: Option<real>, gate: Option<(real, real)>)
      requires SegOk(g, dim)
    {
      forall j: nat | j < n :: GoesBy(g, r, j, deadline, gate)
    }

    /** One pass of a wait, from what it reads. */
    lemma OnePass(g: Seg, r: nat, n: nat, t: real, now: real, deadline: Option<real>, gate: Option<(real, real)>)
      requires SegOk(g, dim) && GoOn(g, r, n, deadline, gate) && t == w.clock(r + 2 * n) && now == w.clock(r + 2 * n + 1)
      ensures var looks := gate.Some? && now - LastLook(r, n) >= 0.05;
              && LastLook(r, n + 1) == (if now - LastLook(r, n) >= 0.05 then now else LastLook(r, n))
              && (!plant.connected(r + 2 * n) ==> Waits(Disconnected, g, r, n, deadline, gate))
              && (plant.connected(r + 2 * n) ==>
                    if Arrived(g, t) then Waits(Done, g, r, n, deadline, gate)
                    else if deadline.Some? && now >= deadline.value then Waits(Timeout, g, r, n, deadline, gate)
                    else if looks && plant.margin(plant.measured(r + 2 * n + 2), gate.value.1) < gate.value.0
                         then Waits(Gate, g, r, n, deadline, gate)
                    else GoOn(g, r, n + 1, deadline, gate))
    {
      hide Arrived;
      assert LooksAt(r, n) <==> now - LastLook(r, n) >= 0.05;
    }

    lemma ClockGoesOn(n: nat)
      requires w.Ticking()
      ensures w.clock(n) <= w.clock(n + 1) <= w.clock(n + 2)
    {
    }

    lemma PassedSome(d: real) returns (n: nat)
      requires w.Ticking()
      ensures w.PassedBy(d, n)
    {
      assert w.Reached(d);
      n :| w.PassedBy(d, n);
    }

    lemma StillOnTime(d: real, n: nat, last: nat)
      requires w.Ticking() && w.PassedBy(d, last) && w.clock(n) < d
      ensures n < last
    {
      w.OnTime(d, n, last);
    }

    lemma NoPassYet(g: Seg, r: nat, deadline: Option<real>, gate: Option<(real, real)>)
      requires SegOk(g, dim)
      ensures GoOn(g, r, 0, deadline, gate) && LastLook(r, 0) == 0.0
    {
    }

    /** Looks are 0.05 apart or more; and at any pass, one was less than 0.05 ago, or the clock has not come that far. */
    lemma LooksSpaced(r: nat, i: nat, j: nat)
      requires w.Monotonic() && i < j && LooksAt(r, i) && LooksAt(r, j)
      ensures w.clock(r + 2 * j + 1) - w.clock(r + 2 * i + 1) >= 0.05
    {
      LookNotBefore(r, i, j);
    }

    lemma {:induction false} LookNotBefore(r: nat, i: nat, j: nat)
      requires w.Monotonic() && i < j && LooksAt(r, i)
      ensures LastLook(r, j) >= w.clock(r + 2 * i + 1)
    {
      if i + 1 < j {
        LookNotBefore(r, i, j - 1);
        assert w.clock(r + 2 * i + 1) <= w.clock(r + 2 * (j - 1) + 1);
      }
    }

    lemma {:induction false} LookBefore(r: nat, j: nat) returns (i: nat)
      ensures w.clock(r + 2 * j + 1) < 0.05 ||
              (i <= j && LooksAt(r, i) && w.clock(r + 2 * j + 1) - w.clock(r + 2 * i + 1) < 0.05)
    {
      i := LastLookIs(r, j);
      if LooksAt(r, j) {
        i := j;
      }
    }

    lemma {:induction false} LastLookIs(r: nat, j: nat) returns (i: nat)
      ensures LastLook(r, j) == 0.0 || (i < j && LooksAt(r, i) && LastLook(r, j) == w.clock(r + 2 * i + 1))
    {
      i := 0;
      if j > 0 {
        i := LastLookIs(r, j - 1);
        if LooksAt(r, j - 1) {
          i := j - 1;
        }
      }
    }

    /**
     While a gated wait goes on, the measured pose was found to have the gate's floor less than 0.05 before, once
     the clock has come that far; a wait that the gate ends has just found one that has less.
     */
    lemma PoseWatched(st: Status, g: Seg, r: nat, n: nat, deadline: Option<real>, gate: (real, real), j: nat) returns (i: nat)
      requires w.Monotonic() && Waits(st, g, r, n, deadline, Some(gate)) && j < n
      ensures w.clock(r + 2 * j + 1) < 0.05 ||
              (i <= j && w.clock(r + 2 * j + 1) - w.clock(r + 2 * i + 1) < 0.05
               && plant.margin(plant.measured(r + 2 * i + 2), gate.1) >= gate.0)
      ensures st == Gate ==> plant.margin(plant.measured(r + 2 * n + 2), gate.1) < gate.0
    {
      hide LooksAt, Arrived;
      i := LookBefore(r, j);
      if i <= j {
        assert GoesBy(g, r, i, deadline, Some(gate));
      }
    }

    constructor (w: World, plant: Plant, dim: nat)
      requires w.Ticking() && forall n: nat :: |plant.measured(n)| == dim
      ensures Valid() && Idle() && this.w == w && this.plant == plant && this.dim == dim && seg == None && history == []
    {
      this.w, this.plant, this.dim := w, plant, dim;
      seg, history := None, [];
    }

    /** Every leg but the last was waited for until it was done; the last wait ended as st. */
    ghost predicate LegsWaited(st: Status, legs: seq<Seg>, waits: seq<Wait>, deadline: Option<real>, gate: Option<(real, real)>) {
      && |legs| == |waits|
      && (forall k | 0 <= k < |legs| :: Waits(if k < |legs| - 1 then Done else st, legs[k], waits[k].from, waits[k].passes, deadline, gate))
      && (legs == [] ==> st == Done)
    }

    lemma NoWaits(deadline: Option<real>, gate: Option<(real, real)>)
      ensures LegsWaited(Done, [], [], deadline, gate)
    {
    }

    lemma {:induction false} OneMoreWait(st: Status, legs: seq<Seg>, leg: Seg, waits: seq<Wait>, wait: Wait,
                      deadline: Option<real>, gate: Option<(real, real)>)
      requires LegsWaited(Done, legs, waits, deadline, gate) && Waits(st, leg, wait.from, wait.passes, deadline, gate)
      ensures LegsWaited(st, legs + [leg], waits + [wait], deadline, gate)
    {
      hide Waits;
    }

    method SetSegment(from: Vec, to: Vec, span: real)
      requires Valid() && |from| == |to| == dim
      modifies this, w`readings
      ensures Valid() && w.readings == old(w.readings) + 1
      ensures seg == Some(Seg(from, to, w.clock(old(w.readings)), span)) && history == old(history) + [seg.value]
    {
      var t := w.Now();
      assert w.clock(old(w.readings)) <= w.clock(w.readings);
      seg := Some(Seg(from, to, t, span));
      history := history + [seg.value];
    }

    /** _freeze_feed, while a segment is set. */
    method FreezeFeed()
      requires Valid() && seg.Some?
      modifies this, w`readings
      ensures Valid() && w.readings == old(w.readings) + 2
      ensures var cur := ValueAt(old(seg).value, w.clock(old(w.readings)));
              seg == Some(Seg(cur, cur, w.clock(old(w.readings) + 1), 0.0)) && history == old(history) + [seg.value]
      ensures Idle()
    {
      hide Lerp;
      assert w.clock(w.readings) <= w.clock(w.readings + 1);
      var t := w.Now();
      var cur := ValueAt(seg.value, t);
      SetSegment(cur, cur, 0.0);
    }

    /** Frozen: one more segment, of no length, from a pose of the last one. */
    twostate predicate Froze()
      reads this
    {
      && old(seg).Some? && seg.Some? && history == old(history) + [seg.value]
      && SegOk(old(seg).value, dim) && seg.value.span == 0.0 && seg.value.from == seg.value.to
      && exists t: real :: t >= old(seg).value.t0 && seg.value.from == ValueAt(old(seg).value, t)
    }

    /** _wait_segment: until arrival, the deadline, the gate, or the link goes. */
    method WaitSegment(deadline: Option<real>, gate: Option<(real, real)>) returns (st: Status, ghost n: nat)
      requires Valid() && seg.Some?
      modifies this, w`readings
      ensures Valid() && w.readings >= old(w.readings)
      ensures st == Done ==> seg == old(seg) && history == old(history) && Idle()
      ensures st == Disconnected ==> seg == old(seg) && history == old(history)
      ensures st == Timeout ==> deadline.Some? && Froze() && Idle()
      ensures st == Gate ==> gate.Some? && Froze() && Idle()
      ensures Waits(st, old(seg).value, old(w.readings), n, deadline, gate)
    {
      hide Lerp, Progress, LastLook, GoesBy, GoOn, Waits, w.Ticking;
      var tGate := 0.0;
      n := 0;
      ghost var r, g := w.readings, seg.value;
      NoPassYet(g, r, deadline, gate);
      ghost var end := EndOf(seg.value);
      ghost var last := PassedSome(end);
      while plant.connected(w.readings)
        invariant Valid() && seg == old(seg) && history == old(history) && w.readings == r + 2 * n
        invariant gate.Some? ==> tGate == LastLook(r, n)
        invariant GoOn(g, r, n, deadline, gate)
        decreases last + 1 - w.readings
      {
        ClockGoesOn(w.readings);
        OnePass(g, r, n, w.clock(w.readings), w.clock(w.readings + 1), deadline, gate);
        var t := w.Now();
        if Progress(seg.value, t) >= 1.0 {
          ArrivedStays(seg.value, t, w.clock(w.readings));
          return Done, n;
        }
        ArrivesByEnd(seg.value, t);
        StillOnTime(end, w.readings - 1, last);
        var now := w.Now();
        if deadline.Some? && now >= deadline.value {
          FreezeFeed();
          return Timeout, n;
        }
        if gate.Some? && now - tGate >= 0.05 {
          tGate := now;
          if plant.margin(plant.measured(w.readings), gate.value.1) < gate.value.0 {
            FreezeFeed();
            return Gate, n;
          }
        }
        n := n + 1;
      }
      OnePass(g, r, n, w.clock(w.readings), w.clock(w.readings + 1), deadline, gate);
      st := Disconnected;
    }

    /** One leg: a segment from where the target stands, and the wait for it. */
    method RunLeg(cur: Vec, to: Vec, v: real, deadline: Option<real>, gate: Option<(real, real)>)
      returns (st: Status, ghost leg: Seg, ghost wait: Wait)
      requires Valid() && Idle() && |cur| == |to| == dim && (seg.Some? ==> cur == seg.value.to)
      modifies this, w`readings
      ensures Valid() && (st != Disconnected ==> Idle())
      ensures LegOk(leg, cur, to, v, dim)
      ensures old(history) + [leg] <= history && |history| <= |old(history)| + 2
      ensures st == Done || st == Disconnected ==> history == old(history) + [leg]
      ensures st == Done ==> seg == Some(leg) && leg.to == to
      ensures Joined(old(history), [leg], v, dim)
      ensures leg.t0 == w.clock(old(w.readings)) && wait.from == old(w.readings) + 1 && Waits(st, leg, wait.from, wait.passes, deadline, gate)
    {
      hide Lerp, Dist, Progress, Paced, LegTime, Chained, Pace, Waits;
      ghost var t0 := w.clock(w.readings);
      SetSegment(cur, to, LegTime(Dist(cur, to), v));
      leg := seg.value;
      LegPaced(cur, to, leg.t0, v);
      OneMoreJoined(old(history), leg, v, dim, t0);
      ghost var r, n := w.readings, 0;
      st, n := WaitSegment(deadline, gate);
      wait := Wait(r, n);
    }

    /** The target if one is set, else the measured pose. */
    method Standing() returns (cur: Vec)
      requires Valid() && Idle()
      modifies w`readings
      ensures Valid() && Idle() && |cur| == dim && w.readings == old(w.readings) + if seg.Some? then 1 else 0
      ensures cur == if seg.Some? then seg.value.to else plant.measured(old(w.readings))
    {
      hide Lerp, Progress;
      if seg.None? {
        return plant.measured(w.readings);
      }
      assert w.clock(w.readings) <= w.clock(w.readings + 1);
      ghost var now := w.clock(w.readings);
      var t := w.Now();
      assert t == now;
      ArrivedStays(seg.value, now, t);
      ArrivedStays(seg.value, now, w.clock(w.readings));
      cur := ValueAt(seg.value, t);
    }

    /** The waypoint loop of _run_path. */
    method WalkLegs(start: Vec, todo: seq<Vec>, v: real, deadline: Option<real>, gate: Option<(real, real)>)
      returns (st: Status, ghost legs: seq<Seg>, ghost waits: seq<Wait>)
      requires Valid() && Idle() && |start| == dim && (forall k | 0 <= k < |todo| :: |todo[k]| == dim)
      requires seg.Some? ==> start == seg.value.to
      modifies this, w`readings
      ensures Valid() && (st != Disconnected ==> Idle())
      ensures LegsOk(legs, start, todo, v, dim) && (st == Done ==> |legs| == |todo|)
      ensures old(history) + legs <= history && |history| <= |old(history)| + |legs| + 1
      ensures st == Done || st == Disconnected ==> history == old(history) + legs
      ensures Joined(old(history), legs, v, dim)
      ensures LegsWaited(st, legs, waits, deadline, gate)
    {
      hide Arrived, LegOk, LegsOk, Joined, Before, w.Ticking, SegOk, Waits, LegsWaited;
      NoWaits(deadline, gate);
      NoLegs(history, start, todo, v, dim);
      legs, waits := [], [];
      assert history + legs == history;
      var cur, k := start, 0;
      while k < |todo|
        invariant 0 <= k <= |todo| && |legs| == k
        invariant Valid() && Idle() && cur == Before(start, todo, k) && |cur| == dim && (seg.Some? ==> cur == seg.value.to)
        invariant history == old(history) + legs
        invariant LegsOk(legs, start, todo, v, dim) && Joined(old(history), legs, v, dim)
        invariant LegsWaited(Done, legs, waits, deadline, gate)
      {
        BeforeNext(start, todo, k);
        ghost var leg, wait;
        st, leg, wait := RunLeg(cur, todo[k], v, deadline, gate);
        LegAdded(old(history), legs, leg, start, todo, v, dim);
        OneMoreWait(st, legs, leg, waits, wait, deadline, gate);
        legs, waits := legs + [leg], waits + [wait];
        if st != Done {
          return;
        }
        cur := todo[k];
        k := k + 1;
      }
      st := Done;
    }

    /**
     _run_path: each waypoint in turn, from wherever the target stands, which first goes back to the arm if it
     is more than the lead away from it. Whatever was set before, a freeze that put the target back included, the
     feed has no jump from the standing segment on.
     */
    method RunPath(path: seq<Vec>, v: real, deadline: Option<real>, lead: real, scale: real, gateFrac: Option<real>)
      returns (st: Status, ghost legs: seq<Seg>, ghost start: Vec, ghost pts: seq<Vec>, ghost waits: seq<Wait>)
      requires Valid() && Idle() && forall k | 0 <= k < |path| :: |path[k]| == dim
      modifies this, w`readings
      ensures Valid() && (st != Disconnected ==> Idle())
      ensures start == if old(seg).Some? then old(seg).value.to else plant.measured(old(w.readings))
      ensures pts == Walked(path, if old(seg).Some? then Some(start) else None, plant.measured(old(w.readings) + 1), lead)
      ensures LegsOk(legs, start, pts, v, dim) && (st == Done ==> |legs| == |pts|)
      ensures old(history) + legs <= history && |history| <= |old(history)| + |legs| + 1
      ensures st == Done || st == Disconnected ==> history == old(history) + legs
      ensures Joined(old(history), legs, v, dim)
      ensures var measured := plant.measured(old(w.readings));
              var gate := if gateFrac.None? then None
                          else Some((Min(0.0, plant.margin(measured, scale)), Min(gateFrac.value, scale)));
              LegsWaited(st, legs, waits, deadline, gate)
      ensures old(seg).None? ==> Chained(legs, Pace(v), dim)
      ensures old(seg).Some? && Paced(old(seg).value, Pace(v)) ==> Chained([old(seg).value] + legs, Pace(v), dim)
    {
      hide Dist, Arrived, LegsOk, Joined, Chained, Paced, w.Ticking;
      var measured := plant.measured(w.readings);
      var gate := if gateFrac.None? then None else Some((Min(0.0, plant.margin(measured, scale)), Min(gateFrac.value, scale)));
      var cur := Standing();
      start := cur;
      measured := plant.measured(w.readings);
      var todo := path;
      if seg.Some? && Dist(cur, measured) > lead {
        todo := [measured] + path;
      }
      pts := todo;
      st, legs, waits := WalkLegs(cur, todo, v, deadline, gate);
      FollowsLast(old(history), legs, v, dim);
    }
  }

  lemma BeforeNext(start: Vec, pts: seq<Vec>, k: nat)
    requires k < |pts|
    ensures Before(start, pts, k + 1) == pts[k]
  {
  }

  /** A feed without jumps, from whichever of the segments set so far on, stays one when these legs follow it. */
  ghost predicate Joined(hs: seq<Seg>, legs: seq<Seg>, v: real, dim: nat) {
    forall since: nat | since <= |hs| :: Continued(hs[since..], legs, v, dim)
  }

  ghost predicate Continued(hs: seq<Seg>, legs: seq<Seg>, v: real, dim: nat) {
    Chained(hs, Pace(v), dim) ==> Chained(hs + legs, Pace(v), dim)
  }

  lemma {:induction false} NoLegs(hs: seq<Seg>, start: Vec, pts: seq<Vec>, v: real, dim: nat)
    ensures LegsOk([], start, pts, v, dim) && Joined(hs, [], v, dim) && Before(start, pts, 0) == start
  {
    forall since: nat | since <= |hs| ensures Continued(hs[since..], [], v, dim) {
      assert hs[since..] + [] == hs[since..];
    }
  }

  lemma {:induction false} JoinMore(hs: seq<Seg>, legs: seq<Seg>, leg: Seg, v: real, dim: nat)
    requires Joined(hs, legs, v, dim) && Joined(hs + legs, [leg], v, dim)
    ensures Joined(hs, legs + [leg], v, dim)
  {
    hide Chained;
    forall since: nat | since <= |hs| ensures Continued(hs[since..], legs + [leg], v, dim) {
      assert Continued(hs[since..], legs, v, dim) && Continued((hs + legs)[since..], [leg], v, dim);
      assert (hs + legs)[since..] == hs[since..] + legs;
      assert hs[since..] + (legs + [leg]) == (hs[since..] + legs) + [leg];
    }
  }

  /** One more leg walked. */
  lemma {:induction false} LegAdded(hs: seq<Seg>, legs: seq<Seg>, leg: Seg, start: Vec, pts: seq<Vec>, v: real, dim: nat)
    requires LegsOk(legs, start, pts, v, dim) && |legs| < |pts| && LegOk(leg, Before(start, pts, |legs|), pts[|legs|], v, dim)
    requires Joined(hs, legs, v, dim) && Joined(hs + legs, [leg], v, dim)
    ensures LegsOk(legs + [leg], start, pts, v, dim) && Joined(hs, legs + [leg], v, dim)
    ensures (hs + legs) + [leg] == hs + (legs + [leg])
  {
    hide LegsOk, LegOk, Joined, Before;
    LegsMore(legs, leg, start, pts, v, dim);
    JoinMore(hs, legs, leg, v, dim);
  }

  lemma {:induction false} OneMoreJoined(hs: seq<Seg>, g: Seg, v: real, dim: nat, t: real)
    requires SegOk(g, dim) && Paced(g, Pace(v))
    requires hs != [] ==> Arrived(hs[|hs| - 1], t) && hs[|hs| - 1].t0 <= t <= g.t0 && g.from == hs[|hs| - 1].to
    ensures Joined(hs, [g], v, dim)
  {
    hide Chained, Paced, Arrived;
    forall since: nat | since <= |hs| ensures Continued(hs[since..], [g], v, dim) {
      if Chained(hs[since..], Pace(v), dim) {
        ExtendChain(hs[since..], g, Pace(v), dim, t);
      }
    }
  }

  /** Whatever came before, the legs follow the last segment without a jump; a segment a freeze left is no exception. */
  lemma {:induction false} FollowsLast(hs: seq<Seg>, legs: seq<Seg>, v: real, dim: nat)
    requires Joined(hs, legs, v, dim)
    ensures hs == [] ==> Chained(legs, Pace(v), dim)
    ensures hs != [] && SegOk(hs[|hs| - 1], dim) && Paced(hs[|hs| - 1], Pace(v)) ==> Chained([hs[|hs| - 1]] + legs, Pace(v), dim)
  {
    hide Paced;
    if hs == [] {
      assert Continued(hs[0..], legs, v, dim);
      assert hs[0..] == [] && hs[0..] + legs == legs;
    } else {
      assert Continued(hs[|hs| - 1..], legs, v, dim);
      assert hs[|hs| - 1..] == [hs[|hs| - 1]];
    }
  }

  lemma {:induction false} ExtendChain(hs: seq<Seg>, g: Seg, v: real, dim: nat, t: real)
    requires Chained(hs, v, dim) && SegOk(g, dim) && Paced(g, v)
    requires hs != [] ==> Arrived(hs[|hs| - 1], t) && hs[|hs| - 1].t0 <= t <= g.t0 && g.from == hs[|hs| - 1].to
    ensures Chained(hs + [g], v, dim)
  {
    hide Paced, Arrived;
    if hs != [] {
      ChainOn(hs, g, v, dim, t);
    }
  }

  /** A time by which the segment has certainly arrived. */
  function EndOf(g: Seg): real {
    g.t0 + Max(g.span, 0.0)
  }

  lemma ArrivesByEnd(g: Seg, t: real)
    requires Progress(g, t) < 1.0
    ensures t < EndOf(g)
  {
    if t >= g.t0 + g.span {
      QuotientBoundBelow(1.0, t - g.t0, g.span);
    }
  }
}
