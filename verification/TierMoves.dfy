// What the moves of the deterministic tiers are, in plain terms: the joint groups by name, the single moves of the
// greedy tier, the back-outs of the detour tier in their order.
module TierMoves {
  import opened Options
  import opened JointSpace
  import opened EdgeCheck
  import opened Paths
  import opened Tiers

  // ---------------------------------------------------------------------------- groups

  ghost predicate OccursAt(s: string, sub: string, k: nat) {
    k + |sub| <= |s| && s[k..k + |sub|] == sub
  }

  /** sub is a part of s. */
  ghost predicate Occurs(s: string, sub: string) {
    exists k: nat :: OccursAt(s, sub, k)
  }

  lemma {:induction false} ContainsIsOccurs(s: string, sub: string)
    ensures Contains(s, sub) <==> Occurs(s, sub)
  {
    if |sub| <= |s| {
      if s[..|sub|] == sub {
        assert OccursAt(s, sub, 0);
      } else if s != [] {
        ContainsIsOccurs(s[1..], sub);
        if Occurs(s[1..], sub) {
          var k: nat :| OccursAt(s[1..], sub, k);
          assert s[1..][k..k + |sub|] == s[k + 1..k + 1 + |sub|];
          assert OccursAt(s, sub, k + 1);
        }
        if Occurs(s, sub) {
          var k: nat :| OccursAt(s, sub, k);
          assert k > 0;
          assert s[1..][k - 1..k - 1 + |sub|] == s[k..k + |sub|];
          assert OccursAt(s[1..], sub, k - 1);
        }
      }
    }
  }

  /** Joint i goes home first in the j-th staging: wrists; shoulder and elbow; all but wrists; all but the pan; the pan. */
  ghost predicate InGroup(arm: seq<string>, i: nat, j: nat) {
    i < |arm| &&
    var wrist, pan := Occurs(arm[i], "wrist"), Occurs(arm[i], "pan");
    match j
    case 0 => wrist
    case 1 => !wrist && !pan
    case 2 => pan || !wrist
    case 3 => wrist || !pan
    case 4 => pan
    case _ => false
  }

  lemma GroupSays(arm: seq<string>, i: nat, j: nat)
    requires j < 5
    ensures i in Groups(arm)[j] <==> InGroup(arm, i, j)
  {
    hide Contains, Occurs;
    if i < |arm| {
      ContainsIsOccurs(arm[i], "wrist");
      ContainsIsOccurs(arm[i], "pan");
    }
  }

  ghost predicate Once(g: seq<nat>) {
    forall a, b | 0 <= a < b < |g| :: g[a] != g[b]
  }

  lemma {:induction false} IndicesOnce(n: nat, keep: nat -> bool)
    ensures Once(Indices(n, keep))
  {
    if n > 0 {
      IndicesOnce(n - 1, keep);
    }
  }

  lemma OnceJoins(g: seq<nat>, h: seq<nat>)
    requires Once(g) && Once(h) && forall x | x in g :: x !in h
    ensures Once(g + h)
  {
    forall a, b | 0 <= a < b < |g + h| ensures (g + h)[a] != (g + h)[b] {
      if a < |g| && b >= |g| {
        assert g[a] in g && h[b - |g|] in h;
      }
    }
  }

  lemma GroupsOnce(arm: seq<string>, j: nat)
    requires j < 5
    ensures Once(Groups(arm)[j])
  {
    hide Contains, Once;
    IndicesOnce(|arm|, (i: nat) => i < |arm| && Contains(arm[i], "wrist"));
    IndicesOnce(|arm|, (i: nat) => i < |arm| && Contains(arm[i], "pan"));
    IndicesOnce(|arm|, (i: nat) => i !in Wrist(arm) && i !in Pan(arm));
    OnceJoins(Pan(arm), Upper(arm));
    OnceJoins(Upper(arm), Wrist(arm));
  }

  lemma BelowSome(g: seq<nat>, n: nat)
    requires forall x | x in g :: x < n
    ensures n > 0 || g == []
  {
    if g != [] {
      assert g[0] in g;
    }
  }

  /** A list of different numbers below n is shorter than n exactly if it misses one. */
  lemma {:induction false} ShortMisses(g: seq<nat>, n: nat)
    requires Once(g) && forall x | x in g :: x < n
    ensures |g| <= n && (|g| < n <==> exists x: nat | x < n :: x !in g)
  {
    if n == 0 {
      BelowSome(g, n);
    } else if n - 1 in g {
      var k :| 0 <= k < |g| && g[k] == n - 1;
      var rest := g[..k] + g[k + 1..];
      assert forall x | x in rest :: x in g && x != n - 1;
      assert forall x | x in g && x != n - 1 :: x in rest;
      ShortMisses(rest, n - 1);
    } else {
      ShortMisses(g, n - 1);
    }
  }

  /** w is q0 with the joints of the j-th staging at home. */
  ghost predicate StagedPose(arm: seq<string>, q0: Vec, home: Vec, j: nat, w: Vec) {
    |w| == |q0| == |home| && forall i: nat | i < |q0| :: w[i] == if InGroup(arm, i, j) then home[i] else q0[i]
  }

  /**
   A staging works exactly if it moves some joints but leaves others for later, moves one of them 0.0001 or more, and
   both its edges are certified.
   */
  lemma StageSays(p: Planner, q0: Vec, home: Vec, j: nat, w: Vec, scale: real, f: real)
    requires p.Valid() && |q0| == |home| == p.dim && j < 5 && StagedPose(p.arm, q0, home, j, w)
    ensures GroupHome(q0, home, Groups(p.arm)[j]) == w
    ensures StageWorks(p, q0, home, Groups(p.arm)[j], scale, f) <==>
              && (exists i: nat | i < p.dim :: InGroup(p.arm, i, j))
              && (exists i: nat | i < p.dim :: !InGroup(p.arm, i, j))
              && (exists i | 0 <= i < p.dim :: Abs(w[i] - q0[i]) >= 0.0001)
              && p.EdgeOk(q0, w, scale, f) && p.EdgeOk(w, home, scale, f)
  {
    hide Groups, InGroup, Once, Dist, p.EdgeOk;
    var g := Groups(p.arm)[j];
    forall i: nat ensures i in g <==> InGroup(p.arm, i, j) {
      GroupSays(p.arm, i, j);
    }
    assert g in Groups(p.arm);
    assert GroupHome(q0, home, g) == w;
    GroupsOnce(p.arm, j);
    ShortMisses(g, p.dim);
    assert g != [] ==> g[0] in g;
    FarApart(q0, w);
  }

  lemma FarApart(q: Vec, w: Vec)
    requires |q| == |w|
    ensures Dist(q, w) >= 0.0001 <==> exists i | 0 <= i < |q| :: Abs(w[i] - q[i]) >= 0.0001
  {
  }

  // ---------------------------------------------------------------------------- single moves

  /** q is cur with joint i the share frac of its way home further on. */
  ghost predicate Moved(cur: Vec, home: Vec, q: Vec, i: nat, frac: real) {
    && |q| == |cur| == |home| && i < |cur|
    && q[i] == cur[i] + frac * (home[i] - cur[i])
    && forall j | 0 <= j < |cur| && j != i :: q[j] == cur[j]
  }

  /** q moves joint i, not at home yet, all of its way, or else 0.6, or else 0.3 of it, whichever is certified first. */
  ghost predicate FirstMove(p: Planner, cur: Vec, home: Vec, q: Vec, i: nat, scale: real, f: real)
    requires p.Valid() && |cur| == |home| == p.dim
  {
    && i < p.dim && (home[i] - cur[i] > 0.0001 || cur[i] - home[i] > 0.0001)
    && |q| == p.dim && p.EdgeOk(cur, q, scale, f)
    && (Moved(cur, home, q, i, 1.0) || Moved(cur, home, q, i, 0.6) || Moved(cur, home, q, i, 0.3))
    && (!Moved(cur, home, q, i, 1.0) ==> Refused(p, cur, home, i, 1.0, scale, f))
    && (!Moved(cur, home, q, i, 1.0) && !Moved(cur, home, q, i, 0.6) ==> Refused(p, cur, home, i, 0.6, scale, f))
  }

  ghost predicate Refused(p: Planner, cur: Vec, home: Vec, i: nat, frac: real, scale: real, f: real)
    requires p.Valid() && |cur| == |home| == p.dim
  {
    forall q: Vec | |q| == p.dim && Moved(cur, home, q, i, frac) :: !p.EdgeOk(cur, q, scale, f)
  }

  /** Of the moves on offer, joint i's leaves the most clearance, and no joint before it offers as much. */
  ghost predicate BestOffer(p: Planner, cur: Vec, home: Vec, q: Vec, i: nat, scale: real, f: real)
    requires p.Valid() && |cur| == |home| == p.dim
  {
    && FirstMove(p, cur, home, q, i, scale, f)
    && forall o: Vec, j: nat | FirstMove(p, cur, home, o, j, scale, f) ::
         var w, best := Clearance(p.margin, cur, o, scale, p.step), Clearance(p.margin, cur, q, scale, p.step);
         w < best || (w == best && i <= j)
  }

  lemma MoveIs(cur: Vec, home: Vec, q: Vec, i: nat, frac: real)
    requires |cur| == |home| && i < |cur|
    ensures Moved(cur, home, q, i, frac) <==> q == MoveJoint(cur, home, i, frac)
  {
  }

  lemma FractionsDiffer(cur: Vec, home: Vec, i: nat)
    requires |cur| == |home| && NotHome(cur, home, i)
    ensures MoveJoint(cur, home, i, 1.0)[i] != MoveJoint(cur, home, i, 0.6)[i]
    ensures MoveJoint(cur, home, i, 1.0)[i] != MoveJoint(cur, home, i, 0.3)[i]
    ensures MoveJoint(cur, home, i, 0.6)[i] != MoveJoint(cur, home, i, 0.3)[i]
  {
  }

  lemma FirstMoveIs(p: Planner, cur: Vec, home: Vec, q: Vec, i: nat, scale: real, f: real)
    requires p.Valid() && |cur| == |home| == p.dim
    ensures FirstMove(p, cur, home, q, i, scale, f) <==> NotHome(cur, home, i) && LargestMove(p, cur, home, i, scale, f) == Some(q)
  {
    if i < p.dim {
      forall o: Vec, frac: real ensures Moved(cur, home, o, i, frac) <==> o == MoveJoint(cur, home, i, frac) {
        MoveIs(cur, home, o, i, frac);
      }
      hide Moved, MoveJoint, p.EdgeOk;
      if NotHome(cur, home, i) {
        FractionsDiffer(cur, home, i);
      }
    }
  }

  lemma BestMoveIs(p: Planner, cur: Vec, next: Vec, home: Vec, i: nat, scale: real, f: real)
    requires p.Valid() && |cur| == |home| == p.dim
    ensures BestMove(p, cur, home, i, next, p.dim, scale, f) <==> BestOffer(p, cur, home, next, i, scale, f)
  {
    forall q: Vec, j: nat
      ensures FirstMove(p, cur, home, q, j, scale, f) <==> NotHome(cur, home, j) && LargestMove(p, cur, home, j, scale, f) == Some(q)
    {
      FirstMoveIs(p, cur, home, q, j, scale, f);
    }
    hide FirstMove, LargestMove, Clearance;
    if BestOffer(p, cur, home, next, i, scale, f) {
      forall j: nat | j < p.dim && NotHome(cur, home, j) && LargestMove(p, cur, home, j, scale, f).Some?
        ensures FirstMove(p, cur, home, LargestMove(p, cur, home, j, scale, f).value, j, scale, f) {
      }
    }
  }

  /** The greedy tier's step is the best offer, and there is none exactly when no joint has a certified move. */
  lemma GreedyStepSays(p: Planner, cur: Vec, next: Vec, home: Vec, scale: real, f: real)
    requires p.Valid() && |cur| == |home| == p.dim
    ensures GreedyStep(p, cur, next, home, scale, f) <==> exists i: nat :: BestOffer(p, cur, home, next, i, scale, f)
    ensures NoMove(p, cur, home, p.dim, scale, f) <==> !exists q: Vec, i: nat :: FirstMove(p, cur, home, q, i, scale, f)
  {
    hide BestMove, BestOffer, LargestMove, FirstMove, NotHome;
    forall i: nat ensures BestMove(p, cur, home, i, next, p.dim, scale, f) <==> BestOffer(p, cur, home, next, i, scale, f) {
      BestMoveIs(p, cur, next, home, i, scale, f);
    }
    NoMoveSays(p, cur, home, scale, f);
  }

  lemma NoMoveSays(p: Planner, cur: Vec, home: Vec, scale: real, f: real)
    requires p.Valid() && |cur| == |home| == p.dim
    ensures NoMove(p, cur, home, p.dim, scale, f) <==> !exists q: Vec, i: nat :: FirstMove(p, cur, home, q, i, scale, f)
  {
    forall q: Vec, j: nat
      ensures FirstMove(p, cur, home, q, j, scale, f) <==> NotHome(cur, home, j) && LargestMove(p, cur, home, j, scale, f) == Some(q)
    {
      FirstMoveIs(p, cur, home, q, j, scale, f);
    }
    hide FirstMove, LargestMove;
    if j: nat :| j < p.dim && NotHome(cur, home, j) && LargestMove(p, cur, home, j, scale, f).Some? {
      assert FirstMove(p, cur, home, LargestMove(p, cur, home, j, scale, f).value, j, scale, f);
    }
  }

  // ---------------------------------------------------------------------------- back-outs

  lemma {:induction false} AngleSays(delta: real, n: nat, i: nat)
    requires i < n
    ensures |DetoursAt(delta, n)| == 2 * n
    ensures DetoursAt(delta, n)[2 * i] == Detour(delta, i, 1.0) && DetoursAt(delta, n)[2 * i + 1] == Detour(delta, i, -1.0)
  {
    if n > 1 {
      AngleSays(delta, n - 1, if i < n - 1 then i else 0);
    }
  }

  /** 45, 90, then 135 degrees; at each every joint in turn; for each joint forward, then back. */
  lemma DetoursSay(n: nat, i: nat)
    requires i < n
    ensures var ds, deg45 := Detours(n), 3.141592653589793 / 4.0;
            && |ds| == 6 * n
            && ds[2 * i] == Detour(deg45, i, 1.0) && ds[2 * i + 1] == Detour(deg45, i, -1.0)
            && ds[2 * n + 2 * i] == Detour(2.0 * deg45, i, 1.0) && ds[2 * n + 2 * i + 1] == Detour(2.0 * deg45, i, -1.0)
            && ds[4 * n + 2 * i] == Detour(3.0 * deg45, i, 1.0) && ds[4 * n + 2 * i + 1] == Detour(3.0 * deg45, i, -1.0)
  {
    hide DetoursAt;
    AngleSays(PI / 4.0, n, i);
    AngleSays(PI / 2.0, n, i);
    AngleSays(3.0 * PI / 4.0, n, i);
  }

  /** A back-out turns its joint by the angle, or as far as its limits let it, and no other. */
  lemma BackOutSays(p: Planner, q0: Vec, d: Detour, i: nat)
    requires p.Valid() && |q0| == p.dim && d.joint < p.dim && i < p.dim && (d.sgn == 1.0 || d.sgn == -1.0)
    ensures var w, to := BackOut(p, q0, d), if d.sgn == 1.0 then q0[d.joint] + d.delta else q0[d.joint] - d.delta;
            if i != d.joint then w[i] == q0[i]
            else if to < p.lo[i] then w[i] == p.lo[i]
            else if to > p.hi[i] then w[i] == p.hi[i]
            else w[i] == to
  {
  }
}
