// The join edge of the tree search: the one edge of a plan for which "accepted" is not quite "certified",
// exactly when it is, and a run of the search that returns one that is not.
module JoinEdge {
  import opened JointSpace
  import opened EdgeCheck
  import opened Paths
  import opened Tiers
  import opened RrtConnect

  /**
   What the search has checked when the trees meet at qn: the edge by which one tree reached it, from a node a
   no more than a step away, and the step from b that the other tree took toward it. The edge it then executes
   is b -> qn.
   */
  ghost predicate Passes(margin: Margin, a: Vec, b: Vec, qn: Vec, step: real, rrtStep: real, scale: real, f: real)
    requires |a| == |b| == |qn| && step > 0.0 && rrtStep >= 0.0
  {
    && Dist(a, qn) <= rrtStep && Certified(margin, a, qn, scale, step, f)
    && Certified(margin, b, Steer(rrtStep, b, qn), scale, step, f)
  }

  /**
   When the connect loop copied qn, or the edge is too short to have interior samples, those checks certify
   the executed edge.
   */
  lemma JoinExact(margin: Margin, a: Vec, b: Vec, qn: Vec, step: real, rrtStep: real, scale: real, f: real)
    requires |a| == |b| == |qn| && step > 0.0 && rrtStep >= 0.0 && Passes(margin, a, b, qn, step, rrtStep, scale, f)
    requires Dist(b, qn) <= rrtStep || Dist(b, qn) <= step
    ensures Certified(margin, b, qn, scale, step, f)
  {
    hide Dist, Steer, Certified;
    SteerGap(rrtStep, b, qn);
    if Dist(b, qn) <= step {
      EndSamples(margin, a, qn, scale, step, f);
      EndSamples(margin, b, Steer(rrtStep, b, qn), scale, step, f);
      ShortEdge(margin, b, qn, scale, step, f);
    }
  }

  // ------------------------------------------------------------------- when it is not certified

  /** The samples of a -> Lerp(a, b, t) are poses of a -> b. */
  lemma LerpFromStart(a: Vec, b: Vec, t: real, u: real, v: real)
    requires |a| == |b| && v == u * t
    ensures Lerp(a, Lerp(a, b, t), u) == Lerp(a, b, v)
  {
    hide Blend;
    forall i | 0 <= i < |a| ensures Lerp(a, Lerp(a, b, t), u)[i] == Lerp(a, b, v)[i] {
      BlendFromStart(a[i], b[i], t, u, v);
    }
  }

  lemma BlendFromStart(x: real, y: real, t: real, u: real, v: real)
    requires v == u * t
    ensures Blend(x, Blend(x, y, t), u) == Blend(x, y, v)
  {
  }

  /** Distinct parameters are distinct poses. */
  lemma LerpInjective(a: Vec, b: Vec, s: real, t: real)
    requires |a| == |b| && Dist(a, b) > 0.0 && s != t
    ensures Lerp(a, b, s) != Lerp(a, b, t)
  {
    hide Lerp, Blend, Dist, ScaledBy;
    LerpDist(a, b, s, t);
    PositiveProduct(Abs(t - s), Dist(a, b), Dist(Lerp(a, b, s), Lerp(a, b, t)));
    DistZero(Lerp(a, b, s), Lerp(a, b, t));
  }

  lemma QuotientClose(x: real, y: real, step: real)
    requires step > 0.0 && x <= y < x + step
    ensures x / step <= y / step <= x / step + 1.0
  {
    var u, v := x / step, y / step;
    assert u * step == x && v * step == y;
    QuotientBound(x, v, step);
    QuotientBound(y, u + 1.0, step) by { assert (u + 1.0) * step == u * step + step; }
  }

  /** Sample counts of two lengths less than a check step apart differ by at most one. */
  lemma CountsClose(a: Vec, b: Vec, c: Vec, step: real)
    requires |a| == |b| == |c| && step > 0.0
    requires Dist(a, c) <= Dist(a, b) < Dist(a, c) + step
    ensures SampleCount(a, c, step) <= SampleCount(a, b, step) <= SampleCount(a, c, step) + 1
  {
    hide Dist;
    QuotientClose(Dist(a, c), Dist(a, b), step);
  }

  /** j/k of the way to step/n of the way is never exactly 1/m of the way, k being m or m - 1. */
  lemma OffGrid(step: real, n: real, m1: nat, k1: nat, j: int)
    requires 0.000001 <= step < n < step + JOIN_TOL
    requires 3 <= m1 <= 400 && m1 - 1 <= k1 <= m1 && 0 <= j < k1
    ensures Param(k1, j) * (step / n) != Param(m1, 1)
  {
    var u, t, w := Param(k1, j), step / n, Param(m1, 1);
    if u * t == w {
      OnGrid(step, n, (m1 - 1) as real, (k1 - 1) as real, j as real, u, t, w);
      NoGrid(step, n, m1 - 1, k1 - 1, j);
    }
  }

  lemma OnGrid(step: real, n: real, m: real, k: real, j: real, u: real, t: real, w: real)
    requires u * k == j && t * n == step && w * m == 1.0 && u * t == w
    ensures j * step * m == k * n
  {
  }

  lemma NoGrid(step: real, n: real, m: int, k: int, j: int)
    requires 0.000001 <= step < n < step + JOIN_TOL
    requires 2 <= m <= 399 && m - 1 <= k <= m && 0 <= j <= k
    ensures j as real * step * m as real != k as real * n
  {
    var b := AtLeastTwo(m as real, step);
    var jb := Multiple(j, b);
    var d, c := Widened(k as real, step, n);
    assert d == if k == m then b else b - step by {
      assert k as real == if k == m then m as real else m as real - 1.0;
    }
    assert jb != c;
    assert j as real * step * m as real == jb;
  }

  lemma AtLeastTwo(m: real, step: real) returns (b: real)
    requires m >= 2.0 && step >= 0.000001
    ensures b == m * step && b >= 0.000002
  {
    b := m * step;
    ScaleMonotone(step, 2.0, m);
  }

  lemma Multiple(j: int, b: real) returns (jb: real)
    requires j >= 0 && b >= 0.0
    ensures jb == j as real * b && (jb == 0.0 || jb == b || jb >= 2.0 * b)
  {
    jb := j as real * b;
    if j >= 2 {
      ScaleMonotone(b, 2.0, j as real);
      assert b * j as real == jb;
    } else if j == 1 {
      assert jb == 1.0 * b;
    }
  }

  lemma Widened(k: real, step: real, n: real) returns (d: real, c: real)
    requires 0.0 < k <= 399.0 && 0.0 < step < n < step + JOIN_TOL
    ensures d == k * step && c == k * n && 0.0 <= d < c < d + 0.000000399
  {
    var e := n - step;
    d, c := k * step, k * n;
    var ke := k * e;
    assert c == d + ke;
    assert ke > 0.0 by { ScaleStrictly(k, 0.0, e); }
    assert ke < k * JOIN_TOL by { ScaleStrictly(k, e, JOIN_TOL); }
    assert JOIN_TOL * k <= JOIN_TOL * 399.0 by { ScaleMonotone(JOIN_TOL, k, 399.0); }
    NonNegative(k, step);
  }

  /**
   The connect loop stopped within the join tolerance of qn but beyond one step of it, on an edge with
   interior samples. Then there is a margin bad at one of these samples only, under which the checks of the
   search pass, the other tree having reached qn from qn, and yet the edge b -> qn is not certified.
   */
  lemma JoinBroken(b: Vec, qn: Vec, step: real, rrtStep: real, scale: real, f: real) returns (margin: Margin)
    requires |b| == |qn| && step >= 0.001 && rrtStep >= 0.000001
    requires rrtStep < Dist(b, qn) < rrtStep + JOIN_TOL && Dist(b, qn) > step
    ensures Passes(margin, qn, b, qn, step, rrtStep, scale, f) && !Certified(margin, b, qn, scale, step, f)
  {
    hide Dist, Lerp, Param, SampleCount, Steer;
    var m := SampleCount(b, qn, step);
    JoinCounts(b, qn, step, rrtStep);
    var bad := Lerp(b, qn, Param(m, 1));
    margin := BadAt(bad, f);
    assert margin(bad, scale) < f;
    StepAvoids(b, qn, step, rrtStep);
    TipAvoids(b, qn, m);
    DistZero(qn, qn);
    ShortEdge(margin, qn, qn, scale, step, f);
  }

  /**
   Whatever edge into qn the other tree accepted and whatever the geometry, the checks of the search certify
   the join edge exactly when the steering copied its target or the edge is no longer than a check step.
   */
  lemma JoinCertifiedExactlyWhen(b: Vec, qn: Vec, step: real, rrtStep: real, scale: real, f: real)
    requires |b| == |qn| > 0 && step >= 0.001 && rrtStep >= 0.000001 && Dist(Steer(rrtStep, b, qn), qn) < JOIN_TOL
    ensures (forall a: Vec, margin: Margin | |a| == |qn| && Passes(margin, a, b, qn, step, rrtStep, scale, f) ::
               Certified(margin, b, qn, scale, step, f))
            <==> Dist(b, qn) <= rrtStep || Dist(b, qn) <= step
  {
    hide Dist, Steer, Certified, Passes;
    if Dist(b, qn) <= rrtStep || Dist(b, qn) <= step {
      forall a: Vec, margin: Margin | |a| == |qn| && Passes(margin, a, b, qn, step, rrtStep, scale, f)
        ensures Certified(margin, b, qn, scale, step, f)
      {
        JoinExact(margin, a, b, qn, step, rrtStep, scale, f);
      }
    } else {
      SteerGap(rrtStep, b, qn);
      var margin := JoinBroken(b, qn, step, rrtStep, scale, f);
      assert Passes(margin, qn, b, qn, step, rrtStep, scale, f);
    }
  }

  /** Given also the node a that qn was reached from: exactly when each sample of b -> qn is a sample the search took. */
  lemma JoinCertifiedFrom(a: Vec, b: Vec, qn: Vec, step: real, rrtStep: real, scale: real, f: real)
    requires |a| == |b| == |qn| && step > 0.0 && rrtStep >= 0.0 && Dist(a, qn) <= rrtStep
    ensures (forall margin: Margin | Passes(margin, a, b, qn, step, rrtStep, scale, f) ::
               Certified(margin, b, qn, scale, step, f))
            <==> forall q: Vec | SampleOf(b, qn, step, q) ::
                   SampleOf(a, qn, step, q) || SampleOf(b, Steer(rrtStep, b, qn), step, q)
  {
    hide Dist, Steer, SampleOf, Certified;
    var qs := Steer(rrtStep, b, qn);
    forall q: Vec, margin: Margin | SampleOf(b, qn, step, q) && margin == BadAt(q, f)
      ensures Passes(margin, a, b, qn, step, rrtStep, scale, f) <==> !SampleOf(a, qn, step, q) && !SampleOf(b, qs, step, q)
      ensures !Certified(margin, b, qn, scale, step, f)
    {
      BadSample(a, qn, step, q, scale, f);
      BadSample(b, qs, step, q, scale, f);
      BadSample(b, qn, step, q, scale, f);
    }
    if forall margin: Margin | Passes(margin, a, b, qn, step, rrtStep, scale, f) :: Certified(margin, b, qn, scale, step, f) {
      forall q: Vec | SampleOf(b, qn, step, q) ensures SampleOf(a, qn, step, q) || SampleOf(b, qs, step, q) {
        var margin := BadAt(q, f);
        assert !Certified(margin, b, qn, scale, step, f);
      }
    }
    forall margin: Margin | Passes(margin, a, b, qn, step, rrtStep, scale, f) &&
                            forall q: Vec | SampleOf(b, qn, step, q) :: SampleOf(a, qn, step, q) || SampleOf(b, qs, step, q)
      ensures Certified(margin, b, qn, scale, step, f)
    {
      CertifiedSamples(margin, a, qn, scale, step, f);
      CertifiedSamples(margin, b, qs, scale, step, f);
      CertifiedSamples(margin, b, qn, scale, step, f);
    }
  }

  lemma BadSample(a: Vec, b: Vec, step: real, q: Vec, scale: real, f: real)
    requires |a| == |b| && step > 0.0
    ensures Certified(BadAt(q, f), a, b, scale, step, f) <==> !SampleOf(a, b, step, q)
  {
    hide SampleOf;
    CertifiedSamples(BadAt(q, f), a, b, scale, step, f);
  }

  ghost function BadAt(bad: Vec, f: real): Margin {
    (q: Vec, s: real) => if q == bad then f - 1.0 else f
  }

  lemma TipAvoids(b: Vec, qn: Vec, m: nat)
    requires |b| == |qn| && Dist(b, qn) > 0.0 && m >= 3
    ensures qn != Lerp(b, qn, Param(m, 1))
  {
    hide Dist, Lerp, Blend;
    LerpEnds(b, qn);
    assert Param(m, 1) * (m - 1) as real == 1.0;
    LerpInjective(b, qn, 1.0, Param(m, 1));
  }

  /** No sample of the step the loop took is the first interior sample of the edge it kept. */
  lemma StepAvoids(b: Vec, qn: Vec, step: real, rrtStep: real)
    requires |b| == |qn| && step >= 0.001 && rrtStep >= 0.000001
    requires rrtStep < Dist(b, qn) < rrtStep + JOIN_TOL && Dist(b, qn) > step
    ensures var m, k := SampleCount(b, qn, step), SampleCount(b, Steer(rrtStep, b, qn), step);
            forall j | 0 <= j < k :: Lerp(b, Steer(rrtStep, b, qn), Param(k, j)) != Lerp(b, qn, Param(m, 1))
  {
    hide Dist, Lerp, Blend, SampleCount, Param, Steer;
    var m, k := SampleCount(b, qn, step), SampleCount(b, Steer(rrtStep, b, qn), step);
    JoinCounts(b, qn, step, rrtStep);
    forall j | 0 <= j < k
      ensures Lerp(b, Steer(rrtStep, b, qn), Param(k, j)) != Lerp(b, qn, Param(m, 1))
    {
      SampleAvoids(b, qn, rrtStep, m, k, j);
    }
  }

  lemma SampleAvoids(b: Vec, qn: Vec, rrtStep: real, m: nat, k: nat, j: int)
    requires |b| == |qn| && rrtStep >= 0.000001 && rrtStep < Dist(b, qn) < rrtStep + JOIN_TOL
    requires 3 <= m <= 400 && m - 1 <= k <= m && 0 <= j < k
    ensures Lerp(b, Steer(rrtStep, b, qn), Param(k, j)) != Lerp(b, qn, Param(m, 1))
  {
    hide Dist, Lerp, Blend, Param, Steer;
    var n := Dist(b, qn);
    SteerLong(rrtStep, b, qn);
    var t := rrtStep / n;
    var u := Param(k, j) * t;
    assert u != Param(m, 1) by { OffGrid(rrtStep, n, m, k, j); }
    assert Lerp(b, Steer(rrtStep, b, qn), Param(k, j)) == Lerp(b, qn, u) by { LerpFromStart(b, qn, t, Param(k, j), u); }
    DistinctPoses(b, qn, u, Param(m, 1));
  }

  lemma DistinctPoses(a: Vec, b: Vec, s: real, t: real)
    requires |a| == |b| && Dist(a, b) > 0.0
    ensures s == t || Lerp(a, b, s) != Lerp(a, b, t)
  {
    if s != t {
      LerpInjective(a, b, s, t);
    }
  }

  lemma JoinCounts(b: Vec, qn: Vec, step: real, rrtStep: real)
    requires |b| == |qn| && step >= 0.001 && rrtStep >= 0.000001
    requires rrtStep < Dist(b, qn) < rrtStep + JOIN_TOL && Dist(b, qn) > step
    ensures var m, k := SampleCount(b, qn, step), SampleCount(b, Steer(rrtStep, b, qn), step);
            3 <= m <= 400 && m - 1 <= k <= m
  {
    hide Dist, Lerp, Blend, ScaledBy;
    var n, qs := Dist(b, qn), Steer(rrtStep, b, qn);
    LerpEnds(b, qn);
    LerpDist(b, qn, 0.0, rrtStep / n);
    StepLength(rrtStep, n, Dist(b, qs));
    CountsClose(b, qn, qs, step);
    QuotientBound(n, 1.0, step);
  }

  // -------------------------------------------------------------------------- in a run

  /** A cut that is refused leaves a path of three poses as it is, however often it is tried. */
  lemma {:induction false} NothingToCut(p: Planner, trace: seq<seq<Vec>>, scale: real, f: real)
    requires p.Valid() && Smoothing(p, trace, scale, f) && |trace[0]| == 3
    requires !p.EdgeOk(trace[0][0], trace[0][2], scale, f)
    ensures trace[|trace| - 1] == trace[0]
    decreases |trace|
  {
    hide p.EdgeOk;
    var n := |trace| - 1;
    if n > 0 {
      var before := trace[..n];
      NothingToCut(p, before, scale, f);
      assert Tried(p, trace[n - 1], trace[n], scale, f);
    }
  }

  /** The trees after one round in which q0 was drawn and home connected to it. */
  function MetAtOnce(p: Planner, q0: Vec, home: Vec): Trees
    requires |q0| == |home| && p.rrtStep >= 0.0
  {
    Trees([q0, q0], [-1, 0], [home, Steer(p.rrtStep, home, q0)], [-1, 0], false)
  }

  lemma OverMetAtOnce(p: Planner, q0: Vec, home: Vec)
    requires |q0| == |home| && p.rrtStep >= 0.0
    ensures var ts := MetAtOnce(p, q0, home);
            && PointsDown(ts.PA) && PointsDown(ts.PB)
            && OverMeeting(Branch(ts.A, ts.PA, 1), Branch(ts.B, ts.PB, 1), false) == [q0, q0, home]
  {
    hide Steer;
    var ts := MetAtOnce(p, q0, home);
    TwoNodes(q0, q0);
    TwoNodes(home, ts.B[1]);
    hide Branch;
    assert Reverse([home, ts.B[1]])[1..] == [home];
  }

  lemma TwoNodes(x: Vec, y: Vec)
    ensures PointsDown([-1, 0]) && Branch([x, y], [-1, 0], 1) == [x, y]
  {
    assert Branch([x, y], [-1, 0], -1) == [];
    assert Branch([x, y], [-1, 0], 0) == [] + [x];
  }

  lemma MetAtOnceRooted(p: Planner, q0: Vec, home: Vec, scale: real, f: real)
    requires p.Valid() && |q0| == |home| == p.dim
    requires p.EdgeOk(q0, q0, scale, f) && p.EdgeOk(home, Steer(p.rrtStep, home, q0), scale, f)
    ensures Rooted(p, q0, home, Trees([q0], [-1], [home], [-1], false), scale, f)
    ensures Rooted(p, q0, home, MetAtOnce(p, q0, home), scale, f)
  {
    hide p.EdgeOk, InBox, Steer, IsTree;
    var lo, hi := p.BoxLo(q0, home), p.BoxHi(q0, home);
    EndsContained(p, q0, home);
    Roots(p, q0, lo, hi, scale, f);
    Roots(p, home, lo, hi, scale, f);
    SteerFacts(p.rrtStep, home, q0, lo, hi);
    Append(p, [q0], [-1], q0, lo, hi, scale, f, 0, q0);
    Append(p, [home], [-1], home, lo, hi, scale, f, 0, Steer(p.rrtStep, home, q0));
    assert [q0] + [q0] == [q0, q0] && [-1] + [0] == [-1, 0];
    assert [home] + [Steer(p.rrtStep, home, q0)] == [home, Steer(p.rrtStep, home, q0)];
  }

  lemma MetAtOnceRound(p: Planner, q0: Vec, home: Vec, scale: real, f: real)
    requires p.Valid() && |q0| == |home| == p.dim
    requires p.EdgeOk(q0, q0, scale, f) && p.EdgeOk(home, Steer(p.rrtStep, home, q0), scale, f)
    ensures Stopped(p, q0, home, [Trees([q0], [-1], [home], [-1], false)], MetAtOnce(p, q0, home), true, scale, f)
  {
    hide p.EdgeOk, InBox, Dist, Rooted, Round, Search;
    var ts, ts' := Trees([q0], [-1], [home], [-1], false), MetAtOnce(p, q0, home);
    MetAtOnceRooted(p, q0, home, scale, f);
    DistZero(q0, q0);
    assert Steer(p.rrtStep, q0, q0) == q0;
    hide Steer;
    EndsContained(p, q0, home);
    SearchStarts(p, q0, home, scale, f);
    RootedNodes(p, q0, home, ts', scale, f);
    assert Connected(p, ts.A, ts'.A, ts.B, ts.PB, ts'.B, ts'.PB);
    assert Grew(p, ts.A, ts.PA, ts'.A, ts'.PA, q0, scale, f);
    RoundMade(p, q0, home, ts, ts', q0, scale, f);
  }

  lemma RootedNodes(p: Planner, q0: Vec, home: Vec, ts: Trees, scale: real, f: real)
    requires p.Valid() && |q0| == |home| == p.dim && Rooted(p, q0, home, ts, scale, f)
    ensures Nodes(p, ts.A) && Nodes(p, ts.B)
  {
  }

  /**
   Home a step and less than the join tolerance away, over an edge with interior samples: there is a geometry
   in which the direct tier refuses the straight path, the first round of the tree search meets, and the route
   it returns, however it is smoothed, walks exactly the refused edge.
   */
  lemma RefusedEdgeReturned(p: Planner, q0: Vec, home: Vec, scale: real, f: real) returns (p': Planner, end: Trees)
    requires p.Valid() && |q0| == |home| == p.dim && p.rrtStep >= 0.000001
    requires p.rrtStep < Dist(home, q0) < p.rrtStep + JOIN_TOL && Dist(home, q0) > p.step
    ensures p' == p.(margin := p'.margin) && p'.Valid() && !p'.EdgeOk(q0, home, scale, f)
    ensures Stopped(p', q0, home, [Trees([q0], [-1], [home], [-1], false)], end, true, scale, f)
    ensures |end.A| == |end.B| == 2 && |end.B[1]| == |end.A[1]| && Dist(end.B[1], end.A[1]) < JOIN_TOL
    ensures forall path: seq<Vec> | RouteOver(p', q0, end, path, scale, f) :: path == [q0, home]
  {
    hide Dist, Steer, Certified, Stopped, Branch, OverMeeting, Smoothing;
    var margin := JoinBroken(home, q0, p.step, p.rrtStep, scale, f);
    p' := p.(margin := margin);
    if p'.EdgeOk(q0, home, scale, f) {
      CertifiedReverse(margin, q0, home, scale, p.step, f);
      assert false;
    }
    end := MetAtOnce(p, q0, home);
    MetAtOnceRound(p', q0, home, scale, f);
    OverMetAtOnce(p, q0, home);
    SteerGap(p.rrtStep, home, q0);
    forall path: seq<Vec> | RouteOver(p', q0, end, path, scale, f) ensures path == [q0, home] {
      var trace: seq<seq<Vec>> :| Smoothing(p', trace, scale, f) && trace != [] && trace[0] == [q0, q0, home]
                                  && trace[|trace| - 1] == [q0] + path;
      NothingToCut(p', trace, scale, f);
      assert ([q0] + path)[1..] == path && [q0, q0, home][1..] == [q0, home];
    }
  }
}
