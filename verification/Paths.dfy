// HomePlanner's parameters, and what it means for a joint path to be certified.
module Paths {
  import opened Options
  import opened JointSpace
  import opened EdgeCheck

  /** The connect step of the tree search joins two trees when they meet within this distance. */
  const JOIN_TOL: real := 0.000000001

  datatype Planner = Planner(
    margin: Margin, arm: seq<string>, lo: Vec, hi: Vec, step: real,
    scales: seq<real>, rrtStep: real, smoothTime: real, allowPartial: bool)
  {
    const dim: nat := |arm|

    ghost predicate Valid() {
      && dim > 0
      && |lo| == |hi| == dim
      && (forall i | 0 <= i < dim :: lo[i] <= hi[i])
      && step >= 0.001
      && rrtStep >= 0.0
    }

    /** Every sampled pose of the edge clears f at this scale. */
    ghost predicate EdgeOk(a: Vec, b: Vec, scale: real, f: real)
      requires Valid()
    {
      |a| == |b| == dim && Certified(margin, a, b, scale, step, f)
    }

    /** An edge whose ends are within the join tolerance of those of a certified edge. */
    ghost predicate EdgeNear(a: Vec, b: Vec, scale: real, f: real)
      requires Valid()
    {
      |a| == |b| == dim &&
      exists u: Vec, v: Vec | EdgeOk(u, v, scale, f) :: Dist(a, u) < JOIN_TOL && Dist(b, v) < JOIN_TOL
    }

    /** Every edge is certified, except that edge number `join` need only be nearly so. */
    ghost predicate CertifiedBut(pts: seq<Vec>, join: int, scale: real, f: real)
      requires Valid()
    {
      && pts != []
      && (forall i | 0 <= i < |pts| :: |pts[i]| == dim)
      && forall i | 0 <= i < |pts| - 1 ::
           if i == join then EdgeNear(pts[i], pts[i + 1], scale, f) else EdgeOk(pts[i], pts[i + 1], scale, f)
    }

    ghost predicate CertifiedPath(pts: seq<Vec>, scale: real, f: real)
      requires Valid()
    {
      CertifiedBut(pts, -1, scale, f)
    }

    /** The corners of the box spanned by the joint limits, the start and home. */
    function BoxLo(q0: Vec, home: Vec): (c: Vec)
      requires |lo| == |q0| == |home| == dim
      ensures |c| == dim
    {
      seq(dim, i requires 0 <= i < dim => Min(lo[i], Min(q0[i], home[i])))
    }

    function BoxHi(q0: Vec, home: Vec): (c: Vec)
      requires |hi| == |q0| == |home| == dim
      ensures |c| == dim
    {
      seq(dim, i requires 0 <= i < dim => Max(hi[i], Max(q0[i], home[i])))
    }

    /** No coordinate leaves the interval spanned by its limits, its start and its home value. */
    ghost predicate Contained(pts: seq<Vec>, q0: Vec, home: Vec)
      requires Valid() && |q0| == |home| == dim
    {
      forall i | 0 <= i < |pts| :: InBox(pts[i], BoxLo(q0, home), BoxHi(q0, home))
    }

    /** The check every tier runs on a candidate edge, and the clearance it found. */
    method CheckEdge(a: Vec, b: Vec, scale: real, f: real) returns (ok: bool, w: real)
      requires Valid() && |a| == |b| == dim
      ensures ok <==> EdgeOk(a, b, scale, f)
      ensures ok ==> w == Clearance(margin, a, b, scale, step)
    {
      w := EdgeMargin(margin, a, b, scale, step, Some(f));
      ok := w >= f;
      CertifiedIsClearance(margin, a, b, scale, step, f);
    }

    // ------------------------------------------------------------------ path algebra

    lemma EdgeOkReverse(a: Vec, b: Vec, scale: real, f: real)
      requires Valid() && EdgeOk(a, b, scale, f)
      ensures EdgeOk(b, a, scale, f)
    {
      CertifiedReverse(margin, a, b, scale, step, f);
    }

    lemma EdgeOkIsNear(a: Vec, b: Vec, scale: real, f: real)
      requires Valid() && EdgeOk(a, b, scale, f)
      ensures EdgeNear(a, b, scale, f)
    {
      DistZero(a, a);
      DistZero(b, b);
    }

    lemma EdgeNearReverse(a: Vec, b: Vec, scale: real, f: real)
      requires Valid() && EdgeNear(a, b, scale, f)
      ensures EdgeNear(b, a, scale, f)
    {
      var u: Vec, v: Vec :| EdgeOk(u, v, scale, f) && Dist(a, u) < JOIN_TOL && Dist(b, v) < JOIN_TOL;
      EdgeOkReverse(u, v, scale, f);
    }

    /** Walking a path backwards certifies the same edges. */
    lemma ReverseCertified(pts: seq<Vec>, join: int, scale: real, f: real)
      requires Valid() && CertifiedBut(pts, join, scale, f)
      ensures CertifiedBut(Reverse(pts), |pts| - 2 - join, scale, f)
    {
      hide EdgeOk, EdgeNear;
      var r, back := Reverse(pts), |pts| - 2 - join;
      forall i | 0 <= i < |r| - 1
        ensures if i == back then EdgeNear(r[i], r[i + 1], scale, f) else EdgeOk(r[i], r[i + 1], scale, f)
      {
        var k := |pts| - 2 - i;
        assert r[i] == pts[k + 1] && r[i + 1] == pts[k];
        if k == join {
          EdgeNearReverse(pts[k], pts[k + 1], scale, f);
        } else {
          EdgeOkReverse(pts[k], pts[k + 1], scale, f);
        }
      }
    }

    /** Two certified branches whose tips nearly coincide: drop the second tip and walk down its branch. */
    lemma SpliceCertified(xs: seq<Vec>, ys: seq<Vec>, scale: real, f: real)
      requires Valid() && CertifiedPath(xs, scale, f) && CertifiedPath(ys, scale, f)
      requires |ys| >= 2 && Dist(ys[|ys| - 1], xs[|xs| - 1]) < JOIN_TOL
      ensures CertifiedBut(xs + Reverse(ys)[1..], |xs| - 1, scale, f)
    {
      hide EdgeOk, EdgeNear;
      var r := Reverse(ys);
      ReverseCertified(ys, -1, scale, f);
      assert CertifiedBut(r, |ys| - 1, scale, f);
      var pts := xs + r[1..];
      forall i | 0 <= i < |pts| - 1
        ensures if i == |xs| - 1 then EdgeNear(pts[i], pts[i + 1], scale, f)
                else EdgeOk(pts[i], pts[i + 1], scale, f)
      {
        if i < |xs| - 1 {
          assert EdgeOk(xs[i], xs[i + 1], scale, f);
        } else if i == |xs| - 1 {
          assert pts[i] == xs[i] && pts[i + 1] == r[1];
          NearFromTip(xs[i], r[0], r[1], scale, f);
        } else {
          var k := i - |xs| + 1;
          assert pts[i] == r[k] && pts[i + 1] == r[k + 1];
        }
      }
    }

    lemma NearFromTip(a: Vec, tip: Vec, next: Vec, scale: real, f: real)
      requires Valid() && |a| == dim && EdgeOk(tip, next, scale, f) && Dist(tip, a) < JOIN_TOL
      ensures EdgeNear(a, next, scale, f)
    {
      DistSymmetric(tip, a);
      DistZero(next, next);
    }

    // --------------------------------------------------------- certified means clear

    /** A pose of a nearly certified edge is within the join tolerance of one of a certified edge. */
    lemma NearPose(a: Vec, b: Vec, u: Vec, v: Vec, s: real, tol: real)
      requires |a| == |b| == |u| == |v| && 0.0 <= s <= 1.0 && 0.0 <= tol
      requires Dist(a, u) <= tol && Dist(b, v) <= tol
      ensures Dist(Lerp(a, b, s), Lerp(u, v, s)) <= tol
    {
      hide Blend, Dist, Lerp;
      var p, q := Lerp(a, b, s), Lerp(u, v, s);
      forall i | 0 <= i < |a| ensures Abs(q[i] - p[i]) <= tol {
        DistAt(a, u, i);
        DistAt(b, v, i);
        NearCoordinate(a[i], b[i], u[i], v[i], s, tol);
      }
      DistLeast(p, q, tol);
    }

    lemma NearCoordinate(a: real, b: real, u: real, v: real, s: real, tol: real)
      requires 0.0 <= s <= 1.0 && Abs(u - a) <= tol && Abs(v - b) <= tol
      ensures Abs(Blend(u, v, s) - Blend(a, b, s)) <= tol
    {
      BlendBetween(u - a, v - b, s, -tol, tol);
      assert Blend(u, v, s) - Blend(a, b, s) == Blend(u - a, v - b, s);
    }
  }

  function Reverse<T>(xs: seq<T>): (r: seq<T>)
    ensures |r| == |xs|
    ensures forall i | 0 <= i < |xs| :: r[i] == xs[|xs| - 1 - i]
  {
    seq(|xs|, i requires 0 <= i < |xs| => xs[|xs| - 1 - i])
  }
}
