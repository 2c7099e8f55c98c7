// What the shaper publishes while homing: how far it is from the commands of a ramp or from the follower's
// feed when each target is held until the next one comes, and so how clear of collision it is.
module OutputRuns {
  import opened Options
  import opened JointSpace
  import opened EdgeCheck
  import opened Paths
  import opened HomePlan
  import opened PlanClearance
  import opened CommandShaper
  import opened ShaperRuns
  import opened SegmentFeed
  import opened FollowerRuns
  import HomeRamp
  import BridgeModes
  import BridgeRuns

  // ------------------------------------------------------------------------- held commands

  /** Command m + 1 replaces command m at time m * T; the reference moves from the one to the other in T. */
  function Stairs(cs: seq<Vec>, T: real, n: nat): (hs: seq<Seg>)
    requires n < |cs|
    ensures |hs| == n
    ensures forall m | 0 <= m < n :: hs[m] == Seg(cs[m], cs[m + 1], SampleTime(0.0, T, m), T)
  {
    seq(n, m requires 0 <= m < n => Seg(cs[m], cs[m + 1], SampleTime(0.0, T, m), T))
  }

  /** Commands of one size, no two in a row more than `hop` apart. */
  ghost predicate Commands(cs: seq<Vec>, dim: nat, hop: real) {
    && (forall m | 0 <= m < |cs| :: |cs[m]| == dim)
    && forall m, n | 0 <= m && n == m + 1 && n < |cs| :: Dist(cs[m], cs[n]) <= hop
  }

  lemma {:induction false} StairSeg(cs: seq<Vec>, dim: nat, u: real, T: real, hop: real, m: nat)
    requires Commands(cs, dim, hop) && m + 1 < |cs| && T > 0.0 && PerPass(u, T, hop)
    ensures var g := Seg(cs[m], cs[m + 1], SampleTime(0.0, T, m), T);
            SegOk(g, dim) && Paced(g, u) && ValueAt(g, SampleTime(0.0, T, m)) == cs[m] && ValueAt(g, SampleTime(0.0, T, m + 1)) == cs[m + 1]
  {
    hide Lerp, Dist;
    var n := m + 1;
    assert Dist(cs[m], cs[n]) <= hop;
    var g := Seg(cs[m], cs[n], SampleTime(0.0, T, m), T);
    LerpEnds(g.from, g.to);
    NextSample(0.0, T, m);
    hide SampleTime;
    assert T / T == 1.0;
  }

  /** The reference is at command m at time m * T, and jumps nowhere. */
  lemma {:induction false} StairsChained(cs: seq<Vec>, dim: nat, u: real, T: real, hop: real, n: nat)
    requires Commands(cs, dim, hop) && 0 < n < |cs| && T > 0.0 && PerPass(u, T, hop)
    ensures var hs := Stairs(cs, T, n);
            && FeedSet(hs, dim) && Chained(hs, u, dim)
            && forall m: nat | m <= n :: FeedAt(hs, SampleTime(0.0, T, m), dim) == cs[m]
  {
    hide Dist, Paced, ValueAt, PerPass, Chained, FeedAt, Commands, SegOk;
    var g := Seg(cs[n - 1], cs[n], SampleTime(0.0, T, n - 1), T);
    StairSeg(cs, dim, u, T, hop, n - 1);
    var hs := Stairs(cs, T, n - 1);
    assert Stairs(cs, T, n) == hs + [g];
    if n > 1 {
      StairsChained(cs, dim, u, T, hop, n - 1);
      EarlierStair(n - 2, n - 1, T);
      ChainFrom(hs, g, u, dim);
      forall m: nat | m <= n ensures FeedAt(hs + [g], SampleTime(0.0, T, m), dim) == cs[m] {
        FeedOfLast(hs, g, SampleTime(0.0, T, m), dim);
        if m < n - 1 {
          EarlierStair(m, n - 1, T);
        }
      }
    } else {
      assert hs + [g] == [g];
      ChainOne(g, u, dim);
      FeedOfLast([], g, 0.0, dim);
      FeedOfLast([], g, SampleTime(0.0, T, 1), dim);
    }
  }

  lemma {:induction false} ChainOne(g: Seg, v: real, dim: nat)
    requires SegOk(g, dim) && Paced(g, v)
    ensures FeedSet([g], dim) && Chained([g], v, dim)
  {
  }

  lemma {:induction false} ChainFrom(hs: seq<Seg>, g: Seg, v: real, dim: nat)
    requires FeedSet(hs, dim) && Chained(hs, v, dim) && SegOk(g, dim) && Paced(g, v)
    requires hs[|hs| - 1].t0 <= g.t0 && g.from == FeedAt(hs, g.t0, dim)
    ensures FeedSet(hs + [g], dim) && Chained(hs + [g], v, dim)
  {
    hide Paced, FeedAt;
    assert (hs + [g])[..|hs|] == hs;
  }

  lemma {:induction false} FeedOfLast(hs: seq<Seg>, g: Seg, t: real, dim: nat)
    requires (hs != [] ==> FeedSet(hs, dim)) && SegOk(g, dim)
    ensures FeedSet(hs + [g], dim)
    ensures FeedAt(hs + [g], t, dim) == if hs != [] && t < g.t0 then FeedAt(hs, t, dim) else ValueAt(g, t)
  {
    hide ValueAt;
    assert (hs + [g])[..|hs|] == hs;
  }

  lemma {:induction false} StairNotBefore(m: nat, T: real)
    requires T > 0.0
    ensures SampleTime(0.0, T, m) >= 0.0
  {
    assert SampleTime(0.0, T, 0) == 0.0;
    if m > 0 {
      EarlierStair(0, m, T);
    }
  }

  lemma {:induction false} EarlierStair(m: nat, n: nat, T: real)
    requires m < n && T > 0.0
    ensures SampleTime(0.0, T, m) < SampleTime(0.0, T, n)
  {
    if m < n - 1 {
      EarlierStair(m, n - 1, T);
    }
  }

  /** Pass k sees command at[k] + 1, set before it and replaced no earlier than it. */
  ghost predicate SeesStairs(at: seq<nat>, t0: real, dt: real, T: real, n: nat) {
    && (forall k | 0 <= k < |at| ::
          at[k] < n && SampleTime(0.0, T, at[k]) <= SampleTime(t0, dt, k) <= SampleTime(0.0, T, at[k] + 1))
    && forall j, k | 0 <= j && k == j + 1 && k < |at| :: at[j] <= at[k] <= at[j] + 1
  }

  /** What the shaper is given: each pass the command that is in force. */
  ghost function StairFeed(cs: seq<Vec>, at: seq<nat>, dt: real): (fs: seq<Feed>)
    requires forall k | 0 <= k < |at| :: at[k] + 1 < |cs|
    ensures |fs| == |at| && forall k | 0 <= k < |at| :: fs[k] == Feed(Some(cs[at[k] + 1]), None, true, dt)
  {
    seq(|at|, k requires 0 <= k < |at| => Feed(Some(cs[at[k] + 1]), None, true, dt))
  }

  /** Commands every T, held in between, are a held target. */
  lemma {:induction false} StairsAreHeld(
    cs: seq<Vec>, dim: nat, u: real, T: real, hop: real, at: seq<nat>, t0: real, dt: real, du: real, n: nat)
    requires Commands(cs, dim, hop) && 0 < n < |cs| && T > 0.0 && dt > 0.0 && u >= 0.0
    requires PerPass(u, T, hop) && PerPass(u, dt, du) && SeesStairs(at, t0, dt, T, n)
    ensures FeedSet(Stairs(cs, T, n), dim) && FeedsOk(StairFeed(cs, at, dt))
    ensures HeldFeed(StairFeed(cs, at, dt), FeedNow(Stairs(cs, T, n), dim, t0, dt, |at|), Held(u, hop, hop, dt), du)
  {
    hide Dist, Chained, FeedAt, PerPass, SampleTime, Commands, SeesStairs;
    StairsChained(cs, dim, u, T, hop, n);
    SeenAt(at, t0, dt, T, n);
    CommandsSized(cs, dim, hop);
    var hs, fs := Stairs(cs, T, n), StairFeed(cs, at, dt);
    var refs := FeedNow(hs, dim, t0, dt, |at|);
    forall k | 0 <= k < |at| ensures Dist(refs[k], fs[k].target.value) <= hop {
      StairRef(cs, dim, u, T, hop, at, t0, dt, n, k);
    }
    forall j, k | 0 <= j && k == j + 1 && k < |at|
      ensures Dist(refs[j], refs[k]) <= du && Dist(fs[j].target.value, fs[k].target.value) <= hop
    {
      StairStep(cs, dim, u, T, hop, at, t0, dt, du, n, j);
    }
  }

  lemma {:induction false} CommandsSized(cs: seq<Vec>, dim: nat, hop: real)
    requires Commands(cs, dim, hop)
    ensures forall m | 0 <= m < |cs| :: |cs[m]| == dim
  {
  }

  lemma {:induction false} SeenAt(at: seq<nat>, t0: real, dt: real, T: real, n: nat)
    requires SeesStairs(at, t0, dt, T, n)
    ensures forall k | 0 <= k < |at| :: at[k] < n
  {
  }

  lemma {:induction false} StairRef(
    cs: seq<Vec>, dim: nat, u: real, T: real, hop: real, at: seq<nat>, t0: real, dt: real, n: nat, k: nat)
    requires Commands(cs, dim, hop) && 0 < n < |cs| && T > 0.0 && u >= 0.0 && PerPass(u, T, hop)
    requires SeesStairs(at, t0, dt, T, n) && k < |at| && FeedSet(Stairs(cs, T, n), dim)
    ensures SampleTime(t0, dt, k) >= 0.0 && at[k] < n && |cs[at[k] + 1]| == dim
    ensures Dist(FeedAt(Stairs(cs, T, n), SampleTime(t0, dt, k), dim), cs[at[k] + 1]) <= hop
  {
    var m, s := at[k], SampleTime(t0, dt, k);
    assert SampleTime(0.0, T, m) <= s <= SampleTime(0.0, T, m + 1) && m < n && |cs[m + 1]| == dim;
    assert Stairs(cs, T, n)[0].t0 == 0.0;
    NextSample(0.0, T, m);
    hide Dist, Chained, FeedAt, PerPass, SampleTime, Commands, SeesStairs;
    StairsChained(cs, dim, u, T, hop, n);
    StairNotBefore(m, T);
    FeedWithin(Stairs(cs, T, n), u, dim, s, SampleTime(0.0, T, m + 1), T, hop);
  }

  lemma {:induction false} StairStep(
    cs: seq<Vec>, dim: nat, u: real, T: real, hop: real, at: seq<nat>, t0: real, dt: real, du: real, n: nat, j: nat)
    requires Commands(cs, dim, hop) && 0 < n < |cs| && T > 0.0 && dt > 0.0 && u >= 0.0
    requires PerPass(u, T, hop) && PerPass(u, dt, du) && SeesStairs(at, t0, dt, T, n) && j + 1 < |at|
    requires FeedSet(Stairs(cs, T, n), dim)
    ensures at[j] < n && at[j + 1] < n && |cs[at[j] + 1]| == |cs[at[j + 1] + 1]| == dim
    ensures Dist(FeedAt(Stairs(cs, T, n), SampleTime(t0, dt, j), dim), FeedAt(Stairs(cs, T, n), SampleTime(t0, dt, j + 1), dim)) <= du
    ensures Dist(cs[at[j] + 1], cs[at[j + 1] + 1]) <= hop
  {
    var k := j + 1;
    assert at[j] <= at[k] <= at[j] + 1 && at[k] < n;
    assert Stairs(cs, T, n)[0].t0 == 0.0;
    hide Dist, Chained, FeedAt, PerPass, SampleTime, SeesStairs;
    StairsChained(cs, dim, u, T, hop, n);
    StairRef(cs, dim, u, T, hop, at, t0, dt, n, j);
    NextSample(t0, dt, j);
    FeedWithin(Stairs(cs, T, n), u, dim, SampleTime(t0, dt, j), SampleTime(t0, dt, k), dt, du);
    NonNegative(u, T);
    PerPassIs(u, T, hop);
    CommandHop(cs, dim, hop, at[j] + 1, at[k] + 1);
  }

  lemma {:induction false} PerPassIs(u: real, dt: real, du: real)
    requires PerPass(u, dt, du)
    ensures du == u * dt
  {
  }

  lemma {:induction false} CommandHop(cs: seq<Vec>, dim: nat, hop: real, m: nat, n: nat)
    requires Commands(cs, dim, hop) && m <= n <= m + 1 && n < |cs| && hop >= 0.0
    ensures |cs[m]| == |cs[n]| && Dist(cs[m], cs[n]) <= hop
  {
    hide Dist;
    DistZero(cs[m], cs[m]);
  }

  /**
   Commands of at most u * T a tick, held for a tick each: when the gains allow it, whatever is published is
   within u / kp and two such steps of the command in force, no limit binds and no resync fires.
   */
  lemma {:induction false} ShaperFollowsStairs(
    p: Params, cs: seq<Vec>, dim: nat, u: real, T: real, hop: real, at: seq<nat>, t0: real, dt: real, du: real, n: nat, k: nat)
    requires Commands(cs, dim, hop) && 0 < n < |cs| && T > 0.0 && SeesStairs(at, t0, dt, T, n) && 0 < k < |at|
    requires Kept(p, Held(u, hop, hop, dt)) && PerPass(u, T, hop) && PerPass(u, dt, du)
    ensures var fs := StairFeed(cs, at, dt);
            && FeedsOk(fs)
            && var s, cmd := ShaperRuns.After(p, None, fs, k), cs[at[k] + 1];
            s.Some? && |s.value.q| == |cmd| && AllIdle(p, s.value, cmd, dt)
            && Dist(s.value.q, cmd) <= Behind(p, Held(u, hop, hop, dt)) + hop && !OutOfReach(p, s, cmd)
  {
    assert p.kp > 0.0 && u >= 0.0 && dt > 0.0;
    hide Kept, HeldFeed, Commands, Dist, AllIdle, PerPass;
    StairsAreHeld(cs, dim, u, T, hop, at, t0, dt, du, n);
    HeldLagBound(p, Held(u, hop, hop, dt), du, StairFeed(cs, at, dt), FeedNow(Stairs(cs, T, n), dim, t0, dt, |at|), k);
  }

  // -------------------------------------------------------------------- clear of collision

  /** The pose the shaper has last published when pass k comes, started with the first of these feeds. */
  ghost function Published(p: Params, fs: seq<Feed>, k: nat): Option<Vec> {
    if FeedsOk(fs) && k <= |fs| && ShaperRuns.After(p, None, fs, k).Some? then Some(ShaperRuns.After(p, None, fs, k).value.q)
    else None
  }

  /**
   The bridge: whatever is published for a homing command, with the shaper following held commands, has the
   floor of the route less what the slope allows over its slack, the lead on the first leg, and the lag.
   */
  lemma {:induction false} HomingOutputClear(
    c: BridgeModes.Config, es: seq<BridgeRuns.Event>, e: nat, L: real, p: Params, h: Held, du: real,
    fs: seq<Feed>, refs: seq<Vec>, k: nat)
    requires BridgeRuns.RunOk(c, es) && e < |es| && es[e].Control?
    requires var m, t := BridgeRuns.Reached(c, es, e), es[e].tick;
             m.home.active && t.jointsFresh && !BridgeModes.HomeGate(c, m.home, t)
    requires Lipschitz(c.p.margin, BridgeRuns.Reached(c, es, e).home.scale, c.p.dim, L)
    requires Kept(p, h) && PerPass(h.u, h.dt, du) && FeedsOk(fs) && HeldFeed(fs, refs, h, du) && 0 < k < |fs|
    requires fs[k].target == BridgeRuns.Reached(c, es, e + 1).arm.lastCmd
    ensures var home, q := BridgeRuns.Reached(c, es, e).home, Published(p, fs, k);
            && q.Some? && |q.value| == c.p.dim
            && c.p.margin(q.value, home.scale) >=
               Drop(home.floor, L, BridgeRuns.OffRoute(c, home) + (Behind(p, h) + h.off))
  {
    hide Kept, HeldFeed, FeedsOk, PerPass, Dist, Lipschitz, Drop, Behind, BridgeRuns.Reached, BridgeRuns.RunOk,
      BridgeModes.HomeGate, BridgeRuns.OffRoute, BridgeRuns.Inv, BridgeRuns.Apply, HomeRamp.RampOk, c.Valid, Published;
    RunValid(c, es);
    HomingSized(c, BridgeRuns.Reached(c, es, e));
    BridgeRuns.HomingCommandClear(c, es, e, L);
    var home, cmd := BridgeRuns.Reached(c, es, e).home, BridgeRuns.Reached(c, es, e + 1).arm.lastCmd.value;
    NearTargetClear(c.p.margin, c.p.dim, home.scale, L, home.floor, BridgeRuns.OffRoute(c, home), p, h, du, fs, refs, k);
  }

  lemma {:induction false} RunValid(c: BridgeModes.Config, es: seq<BridgeRuns.Event>)
    requires BridgeRuns.RunOk(c, es)
    ensures c.Valid() && c.p.Valid()
  {
  }

  lemma {:induction false} HomingSized(c: BridgeModes.Config, m: BridgeModes.Mode)
    requires c.Valid() && BridgeRuns.Inv(c, m) && m.home.active
    ensures m.home.ramp.Some? && |m.home.origin.measured| == c.p.dim && HomeRamp.RampOk(m.home.ramp.value, c.p.dim)
  {
    hide Certificate;
  }

  /** What is published is as clear as the target it follows, less what the slope allows over the lag. */
  lemma {:induction false} NearTargetClear(
    margin: Margin, dim: nat, scale: real, L: real, f: real, r: real, p: Params, h: Held, du: real,
    fs: seq<Feed>, refs: seq<Vec>, k: nat)
    requires Kept(p, h) && PerPass(h.u, h.dt, du) && FeedsOk(fs) && HeldFeed(fs, refs, h, du) && 0 < k < |fs|
    requires fs[k].target.Some? && |fs[k].target.value| == dim && Lipschitz(margin, scale, dim, L)
    requires margin(fs[k].target.value, scale) >= Drop(f, L, r)
    ensures var q := Published(p, fs, k);
            q.Some? && |q.value| == dim && margin(q.value, scale) >= Drop(f, L, r + (Behind(p, h) + h.off))
  {
    hide Lipschitz, Drop, Dist, Kept, HeldFeed, FeedsOk, PerPass, Behind, Published;
    var q := Output(p, h, du, fs, refs, k);
    MarginFurther(margin, scale, q, fs[k].target.value, L, r, Behind(p, h) + h.off, f);
  }

  /** The pose published before pass k, and how far it is from the target of that pass. */
  lemma {:induction false} Output(p: Params, h: Held, du: real, fs: seq<Feed>, refs: seq<Vec>, k: nat) returns (q: Vec)
    requires Kept(p, h) && PerPass(h.u, h.dt, du) && FeedsOk(fs) && HeldFeed(fs, refs, h, du) && 0 < k < |fs|
    ensures fs[k].target.Some? && |q| == |fs[k].target.value| && Dist(q, fs[k].target.value) <= Behind(p, h) + h.off
    ensures Published(p, fs, k) == Some(q)
  {
    assert fs[k].target.Some? && |refs[k]| == |fs[k].target.value|;
    hide Kept, HeldFeed, AllIdle, Dist, ShaperRuns.After, PerPass, Behind, FeedsOk;
    HeldLagBound(p, h, du, fs, refs, k);
    q := ShaperRuns.After(p, None, fs, k).value.q;
  }

  /** From the start of a leg on the feed is on that leg or a later one. */
  lemma {:induction false} FeedOnLeg(before: seq<Seg>, legs: seq<Seg>, first: nat, t: real, dim: nat) returns (j: nat)
    requires FeedSet(before + legs, dim) && first < |legs| && legs[first].t0 <= t
    ensures first <= j < |legs| && legs[j].t0 <= t && SegOk(legs[j], dim)
    ensures FeedAt(before + legs, t, dim) == ValueAt(legs[j], t)
    decreases |legs|
  {
    hide FeedAt, ValueAt;
    var n := |legs| - 1;
    var hs, g := before + legs[..n], legs[n];
    assert before + legs == hs + [g] && (before + legs)[|before| + n] == g;
    assert hs != [] ==> FeedSet(hs, dim) by { FewerSegs(hs, g, dim); }
    FeedOfLast(hs, g, t, dim);
    j := n;
    if hs != [] && t < g.t0 {
      j := FeedOnLeg(before, legs[..n], first, t, dim);
    }
  }

  lemma {:induction false} FewerSegs(hs: seq<Seg>, g: Seg, dim: nat)
    requires FeedSet(hs + [g], dim)
    ensures hs != [] ==> FeedSet(hs, dim)
  {
    hide SegOk;
    forall k | 0 <= k < |hs| ensures SegOk(hs[k], dim) {
      assert (hs + [g])[k] == hs[k];
    }
  }

  /**
   The follower: from the moment its target sets out on a certified route, whatever is published has the floor
   of the plan less what the slope allows over the slack of some leg of the route, the lead on the first leg when
   the target did not start from the arm, and the lag behind a feed held between readings.
   */
  lemma {:induction false} PublishedClear(
    p: Planner, measured: Vec, home: Vec, path: seq<Vec>, scale: real, L: real, lead: real, v: real, target: Option<Vec>,
    start: Vec, before: seq<Seg>, legs: seq<Seg>, ps: Params, taus: seq<real>, t0: real, dt: real, hold: real, hop: real,
    off: real, jump: real, du: real, k: nat)
    returns (i: nat)
    requires WalksRoute(p, measured, home, path, scale, lead, v, target, start, legs) && Lipschitz(p.margin, scale, p.dim, L)
    requires 0 < k < |taus| && FeedSet(before + legs, p.dim) && Chained(before + legs, Pace(v), p.dim) && (before + legs)[0].t0 <= taus[0]
    requires ReadTimes(taus, t0, dt, hold, hop)
    requires Kept(ps, Held(Pace(v), off, jump, dt))
    requires PerPass(Pace(v), hold, off) && PerPass(Pace(v), hop, jump) && PerPass(Pace(v), dt, du)
    requires SetOut(target, measured, lead, legs, SampleTime(t0, dt, k))
    ensures i < |path| && |Leg(measured, path, i).0| == |path[i]| && (target.Some? ==> |target.value| == |measured|)
    ensures var q := Published(ps, Fed(before + legs, p.dim, taus, dt), k);
            && q.Some? && |q.value| == p.dim
            && p.margin(q.value, scale) >=
               Drop(FloorMin(p, measured, scale), L, OffLeg(p, measured, path, i, target, lead) + Behind(ps, Held(Pace(v), off, jump, dt)))
  {
    hide Kept, PerPass, Chained, Dist, ReadTimes, Lipschitz, Drop, WalksRoute, FloorMin, SampleTime, FeedAt, Pace,
      Published, OffLeg, FeedSet, FeedsOk, Fed, Behind, Leg, SetOut, Certificate, LegsOk, Walked, p.Valid;
    WalkFacts(p, measured, home, path, scale, lead, v, target, start, legs);
    i := FedAtClear(p, measured, home, path, scale, L, lead, v, target, start, before, legs, SampleTime(t0, dt, k));
    NearFeedClear(p.margin, p.dim, scale, L, FloorMin(p, measured, scale), OffLeg(p, measured, path, i, target, lead),
      ps, before + legs, Pace(v), taus, t0, dt, hold, hop, off, jump, du, k);
  }

  /** What is published is as clear as the feed is at that moment, less what the slope allows over the lag. */
  lemma {:induction false} NearFeedClear(
    margin: Margin, dim: nat, scale: real, L: real, f: real, r: real, ps: Params, hs: seq<Seg>, v: real, taus: seq<real>,
    t0: real, dt: real, hold: real, hop: real, off: real, jump: real, du: real, k: nat)
    requires Kept(ps, Held(v, off, jump, dt)) && FeedSet(hs, dim) && Chained(hs, v, dim)
    requires ReadTimes(taus, t0, dt, hold, hop) && 0 < k < |taus| && hs[0].t0 <= taus[0]
    requires PerPass(v, hold, off) && PerPass(v, hop, jump) && PerPass(v, dt, du)
    requires Lipschitz(margin, scale, dim, L) && margin(FeedAt(hs, SampleTime(t0, dt, k), dim), scale) >= Drop(f, L, r)
    ensures var q := Published(ps, Fed(hs, dim, taus, dt), k);
            q.Some? && |q.value| == dim && margin(q.value, scale) >= Drop(f, L, r + Behind(ps, Held(v, off, jump, dt)))
  {
    hide Kept, PerPass, Chained, Dist, AllIdle, ReadTimes, Lipschitz, Drop, SampleTime, FeedAt, ShaperRuns.After, Behind, Fed;
    ShaperFollowsHeldFeed(ps, hs, v, dim, taus, t0, dt, hold, hop, off, jump, du, k);
    var q := ShaperRuns.After(ps, None, Fed(hs, dim, taus, dt), k).value.q;
    MarginFurther(margin, scale, q, FeedAt(hs, SampleTime(t0, dt, k), dim), L, r, Behind(ps, Held(v, off, jump, dt)), f);
  }

  /** The feed, once its target has set out on the route, is as clear as the leg of the route it is on. */
  lemma {:induction false} FedAtClear(
    p: Planner, measured: Vec, home: Vec, path: seq<Vec>, scale: real, L: real, lead: real, v: real, target: Option<Vec>,
    start: Vec, before: seq<Seg>, legs: seq<Seg>, now: real)
    returns (i: nat)
    requires WalksRoute(p, measured, home, path, scale, lead, v, target, start, legs) && Lipschitz(p.margin, scale, p.dim, L)
    requires FeedSet(before + legs, p.dim) && Chained(before + legs, Pace(v), p.dim)
    requires SetOut(target, measured, lead, legs, now)
    ensures i < |path| && |Leg(measured, path, i).0| == |path[i]| == p.dim
    ensures p.margin(FeedAt(before + legs, now, p.dim), scale) >=
            Drop(FloorMin(p, measured, scale), L, OffLeg(p, measured, path, i, target, lead))
  {
    assert AllSized(path, p.dim);
    hide Chained, Dist, Lipschitz, Drop, Certificate, FloorMin, LegsOk, FeedAt, ValueAt, Pace, p.Valid, Walked, FeedSet, OffLeg, SegOk;
    var back := target.Some? && Dist(target.value, measured) > lead;
    var j := FeedOnLeg(before, legs, LegNo(back, 0), now, p.dim);
    LegCount(legs, start, path, target, measured, lead, v, p.dim);
    i := if back then j - 1 else j;
    FedTargetClear(p, measured, home, path, scale, L, lead, v, target, start, legs, i, now);
  }

  lemma {:induction false} LegCount(
    legs: seq<Seg>, start: Vec, path: seq<Vec>, target: Option<Vec>, measured: Vec, lead: real, v: real, dim: nat)
    requires target.Some? ==> |target.value| == |measured|
    requires LegsOk(legs, start, Walked(path, target, measured, lead), v, dim)
    ensures |legs| <= |path| + if target.Some? && Dist(target.value, measured) > lead then 1 else 0
  {
    hide Dist;
  }
}
