// The random tier: two trees grown toward each other, joined, walked back to their roots and smoothed.
module RrtConnect {
  import opened Options
  import opened JointSpace
  import opened Environment
  import opened Paths
  import opened Tiers

  // ------------------------------------------------------------------------- the trees

  /** Parents precede children, every parent edge is certified and every node stays in the box. */
  ghost predicate IsTree(
    p: Planner, nodes: seq<Vec>, par: seq<int>, root: Vec, lo: Vec, hi: Vec, scale: real, f: real)
    requires p.Valid()
  {
    && |nodes| == |par| >= 1
    && nodes[0] == root && par[0] == -1
    && (forall i | 0 <= i < |nodes| :: |nodes[i]| == p.dim && InBox(nodes[i], lo, hi))
    && forall i | 0 < i < |nodes| :: 0 <= par[i] < i && p.EdgeOk(nodes[par[i]], nodes[i], scale, f)
  }

  ghost predicate Grown(nodes: seq<Vec>, par: seq<int>, nodes': seq<Vec>, par': seq<int>) {
    nodes <= nodes' && par <= par'
  }

  lemma Append(
    p: Planner, nodes: seq<Vec>, par: seq<int>, root: Vec, lo: Vec, hi: Vec, scale: real, f: real, k: nat, q: Vec)
    requires p.Valid() && IsTree(p, nodes, par, root, lo, hi, scale, f)
    requires k < |nodes| && p.EdgeOk(nodes[k], q, scale, f) && InBox(q, lo, hi) && |q| == p.dim
    ensures IsTree(p, nodes + [q], par + [k], root, lo, hi, scale, f)
  {
  }

  lemma TreeShape(
    p: Planner, nodes: seq<Vec>, par: seq<int>, root: Vec, lo: Vec, hi: Vec, scale: real, f: real)
    requires p.Valid() && IsTree(p, nodes, par, root, lo, hi, scale, f)
    ensures |nodes| == |par| >= 1
    ensures forall i | 0 <= i < |nodes| :: |nodes[i]| == p.dim && InBox(nodes[i], lo, hi)
  {
  }

  /** Parent pointers that always point down. */
  predicate PointsDown(par: seq<int>) {
    forall i | 0 <= i < |par| :: -1 <= par[i] < i
  }

  /** The nodes from the root down to node k. */
  function Branch(nodes: seq<Vec>, par: seq<int>, k: int): (b: seq<Vec>)
    requires |nodes| == |par| && PointsDown(par) && -1 <= k < |nodes|
    ensures k >= 0 ==> b != [] && b[|b| - 1] == nodes[k]
    decreases k
  {
    if k < 0 then [] else Branch(nodes, par, par[k]) + [nodes[k]]
  }

  lemma TreePointsDown(
    p: Planner, nodes: seq<Vec>, par: seq<int>, root: Vec, lo: Vec, hi: Vec, scale: real, f: real)
    requires p.Valid() && IsTree(p, nodes, par, root, lo, hi, scale, f)
    ensures PointsDown(par)
  {
  }

  /** Following parents from any node ends at the root, along certified edges, inside the box. */
  lemma {:induction false} BranchCertified(
    p: Planner, nodes: seq<Vec>, par: seq<int>, root: Vec, lo: Vec, hi: Vec, scale: real, f: real, k: nat)
    requires p.Valid() && IsTree(p, nodes, par, root, lo, hi, scale, f) && k < |nodes| && PointsDown(par)
    ensures var b := Branch(nodes, par, k);
            && p.CertifiedPath(b, scale, f) && b[0] == root && b[|b| - 1] == nodes[k]
            && (forall i | 0 <= i < |b| :: InBox(b[i], lo, hi))
            && (k > 0 ==> |b| >= 2)
    decreases k
  {
    hide p.EdgeOk, InBox, p.EdgeNear;
    var b := Branch(nodes, par, k);
    if k > 0 {
      var head := Branch(nodes, par, par[k]);
      BranchCertified(p, nodes, par, root, lo, hi, scale, f, par[k]);
      assert b == head + [nodes[k]];
      forall i | 0 <= i < |b| - 1 ensures p.EdgeOk(b[i], b[i + 1], scale, f) {
        if i < |head| - 1 {
          assert b[i] == head[i] && b[i + 1] == head[i + 1];
        }
      }
    }
  }

  /** chain: climb the parent pointers, then turn the list round. */
  method Chain(nodes: seq<Vec>, par: seq<int>, k: int) returns (b: seq<Vec>)
    requires |nodes| == |par| && PointsDown(par) && -1 <= k < |nodes|
    ensures b == Branch(nodes, par, k)
  {
    var out: seq<Vec> := [];
    var j := k;
    while j >= 0
      invariant -1 <= j < |nodes|
      invariant Branch(nodes, par, k) == Branch(nodes, par, j) + Reverse(out)
      decreases j
    {
      assert Branch(nodes, par, par[j]) + [nodes[j]] + Reverse(out) ==
             Branch(nodes, par, par[j]) + Reverse(out + [nodes[j]]);
      out := out + [nodes[j]];
      j := par[j];
    }
    b := Reverse(out);
  }

  // ------------------------------------------------------------------------ the growth

  lemma SteerFacts(step: real, a: Vec, b: Vec, lo: Vec, hi: Vec)
    requires |a| == |b| && step >= 0.0 && InBox(a, lo, hi) && InBox(b, lo, hi)
    ensures InBox(Steer(step, a, b), lo, hi)
  {
    hide Dist, InBox, Lerp;
    var n := Dist(a, b);
    if n > step {
      QuotientBound(step, 1.0, n);
      QuotientBoundBelow(0.0, step, n);
      LerpInBox(a, b, step / n, lo, hi);
    }
  }

  /** np.argmin: the first index of a least element. */
  function ArgMin(xs: seq<real>): (k: nat)
    requires xs != []
    ensures k < |xs|
    ensures forall i | 0 <= i < |xs| :: xs[k] <= xs[i]
    ensures forall i | 0 <= i < k :: xs[k] < xs[i]
  {
    if |xs| == 1 then 0
    else var k := ArgMin(xs[..|xs| - 1]); if xs[|xs| - 1] < xs[k] then |xs| - 1 else k
  }

  function Distances(nodes: seq<Vec>, q: Vec): (ds: seq<real>)
    requires forall i | 0 <= i < |nodes| :: |nodes[i]| == |q|
    ensures |ds| == |nodes| && forall i | 0 <= i < |nodes| :: ds[i] == Dist(nodes[i], q)
  {
    seq(|nodes|, i requires 0 <= i < |nodes| => Dist(nodes[i], q))
  }

  /** Index of the node nearest to q in max-norm. */
  function Nearest(nodes: seq<Vec>, q: Vec): (k: nat)
    requires nodes != [] && forall i | 0 <= i < |nodes| :: |nodes[i]| == |q|
    ensures k < |nodes|
    ensures forall i | 0 <= i < |nodes| :: Dist(nodes[k], q) <= Dist(nodes[i], q)
    ensures forall i | 0 <= i < k :: Dist(nodes[k], q) < Dist(nodes[i], q)
  {
    ArgMin(Distances(nodes, q))
  }

  /** The nodes the connect loop appended: steered toward qn, the first from the nearest node, each next from the last. */
  ghost predicate ConnectSteps(
    p: Planner, B: seq<Vec>, B': seq<Vec>, PB': seq<int>, qn: Vec)
    requires p.Valid() && B != [] && |B| <= |B'| == |PB'| && |qn| == p.dim
    requires forall i | 0 <= i < |B'| :: |B'[i]| == p.dim
    requires forall i | 0 <= i < |B| :: |B[i]| == p.dim
  {
    forall i | |B| <= i < |B'| ::
      && PB'[i] == (if i == |B| then Nearest(B, qn) else i - 1) && 0 <= PB'[i] < i
      && B'[i] == Steer(p.rrtStep, B'[PB'[i]], qn)
  }

  /** The loop stopped because its next step, from the last node or else the nearest, was refused. */
  ghost predicate Blocked(p: Planner, B: seq<Vec>, B': seq<Vec>, qn: Vec, scale: real, f: real)
    requires p.Valid() && B != [] && |B| <= |B'| && |qn| == p.dim
    requires forall i | 0 <= i < |B'| :: |B'[i]| == p.dim
    requires forall i | 0 <= i < |B| :: |B[i]| == p.dim
  {
    var k := if |B'| == |B| then Nearest(B, qn) else |B'| - 1;
    !p.EdgeOk(B'[k], Steer(p.rrtStep, B'[k], qn), scale, f)
  }

  /**
   The greedy connect loop: tree B steps toward qn until it is within the join tolerance, a step is
   blocked or the clock cuts in. Nodes are only ever appended.
   */
  method Connect(
    p: Planner, w: World, B: seq<Vec>, PB: seq<int>, ghost root: Vec, ghost lo: Vec, ghost hi: Vec,
    qn: Vec, scale: real, f: real, deadline: real)
    returns (B': seq<Vec>, PB': seq<int>, met: bool)
    requires p.Valid() && w.Ticking()
    requires IsTree(p, B, PB, root, lo, hi, scale, f)
    requires |qn| == p.dim && InBox(qn, lo, hi)
    modifies w`readings
    ensures w.readings >= old(w.readings)
    ensures IsTree(p, B', PB', root, lo, hi, scale, f) && Grown(B, PB, B', PB')
    ensures ConnectSteps(p, B, B', PB', qn)
    ensures met ==> |B'| > |B| && Dist(B'[|B'| - 1], qn) < JOIN_TOL
    ensures forall i | |B| <= i < |B'| - (if met then 1 else 0) :: Dist(B'[i], qn) >= JOIN_TOL
    ensures !met ==> w.Expired(deadline, old(w.readings), w.readings) || Blocked(p, B, B', qn, scale, f)
  {
    hide p.EdgeOk, InBox, Dist, Steer, Nearest;
    B', PB' := B, PB;
    var k := Nearest(B, qn);
    assert w.Reached(deadline);
    ghost var last: nat :| w.PassedBy(deadline, last);
    met := false;
    while true
      invariant w.readings >= old(w.readings)
      invariant k == if |B'| == |B| then Nearest(B, qn) else |B'| - 1
      invariant IsTree(p, B', PB', root, lo, hi, scale, f) && Grown(B, PB, B', PB')
      invariant ConnectSteps(p, B, B', PB', qn)
      invariant forall i | |B| <= i < |B'| :: Dist(B'[i], qn) >= JOIN_TOL
      decreases last - w.readings
    {
      ghost var before := w.readings;
      var late := w.Late(deadline);
      if late {
        return;
      }
      w.OnTime(deadline, before, last);
      var qs := Steer(p.rrtStep, B'[k], qn);
      SteerFacts(p.rrtStep, B'[k], qn, lo, hi);
      var ok, _ := p.CheckEdge(B'[k], qs, scale, f);
      if !ok {
        return;
      }
      Append(p, B', PB', root, lo, hi, scale, f, k, qs);
      B', PB' := B' + [qs], PB' + [k];
      k := |B'| - 1;
      if Dist(qs, qn) < JOIN_TOL {
        met := true;
        return;
      }
    }
  }

  // --------------------------------------------------------------------- the smoothing

  /** Where the nearly certified edge ends up when waypoints i+1..j-1 are dropped. */
  function CutJoin(join: int, i: int, j: int): int {
    if join < i then join else if join < j then -1 else join - (j - i) + 1
  }

  lemma CutCertified(p: Planner, pts: seq<Vec>, join: int, i: nat, j: nat, scale: real, f: real)
    requires p.Valid() && p.CertifiedBut(pts, join, scale, f)
    requires i < j < |pts| && p.EdgeOk(pts[i], pts[j], scale, f)
    ensures p.CertifiedBut(pts[..i + 1] + pts[j..], CutJoin(join, i, j), scale, f)
  {
  }

  /** Waypoints i and j, two or more apart, were tried: those between are gone exactly if the two see each other. */
  ghost predicate Cut(p: Planner, pts: seq<Vec>, i: nat, j: nat, pts': seq<Vec>, scale: real, f: real)
    requires p.Valid()
  {
    && i + 2 <= j < |pts|
    && pts' == if p.EdgeOk(pts[i], pts[j], scale, f) then pts[..i + 1] + pts[j..] else pts
  }

  ghost predicate Tried(p: Planner, pts: seq<Vec>, pts': seq<Vec>, scale: real, f: real)
    requires p.Valid()
  {
    exists i: nat, j: nat :: Cut(p, pts, i, j, pts', scale, f)
  }

  /** The paths of a smoothing, one try after another. */
  ghost predicate Smoothing(p: Planner, trace: seq<seq<Vec>>, scale: real, f: real)
    requires p.Valid()
  {
    trace != [] && forall m, n | 0 <= m && n == m + 1 && n < |trace| :: Tried(p, trace[m], trace[n], scale, f)
  }

  /** Some smoothing of pts ends with r. */
  ghost predicate SmoothedFrom(p: Planner, pts: seq<Vec>, r: seq<Vec>, scale: real, f: real)
    requires p.Valid()
  {
    exists trace: seq<seq<Vec>> ::
      Smoothing(p, trace, scale, f) && trace != [] && trace[0] == pts && trace[|trace| - 1] == r
  }

  /** r is what is left of pts at the positions ks, in order, the first and the last among them. */
  ghost predicate Kept(pts: seq<Vec>, r: seq<Vec>, ks: seq<nat>) {
    && |ks| == |r| > 0 && (forall i | 0 <= i < |ks| :: ks[i] < |pts| && r[i] == pts[ks[i]])
    && (forall i, j | 0 <= i < j < |ks| :: ks[i] < ks[j]) && ks[0] == 0 && ks[|ks| - 1] == |pts| - 1
  }

  lemma TryKeeps(p: Planner, pts: seq<Vec>, r: seq<Vec>, ks: seq<nat>, r': seq<Vec>, scale: real, f: real)
    returns (ks': seq<nat>)
    requires p.Valid() && Kept(pts, r, ks) && Tried(p, r, r', scale, f)
    ensures Kept(pts, r', ks')
  {
    hide p.EdgeOk, Kept;
    var i: nat, j: nat :| Cut(p, r, i, j, r', scale, f);
    ks' := ks;
    if r' != r {
      MiddleGone(pts, r, ks, i, j);
      ks' := ks[..i + 1] + ks[j..];
    }
  }

  lemma MiddleGone(pts: seq<Vec>, r: seq<Vec>, ks: seq<nat>, i: nat, j: nat)
    requires Kept(pts, r, ks) && i + 2 <= j < |r|
    ensures |ks| == |r| && Kept(pts, r[..i + 1] + r[j..], ks[..i + 1] + ks[j..])
  {
    var r', ks' := r[..i + 1] + r[j..], ks[..i + 1] + ks[j..];
    forall m, n | 0 <= m < n < |ks'| ensures ks'[m] < ks'[n] {
      var o, q := if m <= i then m else m - i - 1 + j, if n <= i then n else n - i - 1 + j;
      assert ks'[m] == ks[o] && ks'[n] == ks[q];
    }
    forall m | 0 <= m < |ks'| ensures ks'[m] < |pts| && r'[m] == pts[ks'[m]] {
      var o := if m <= i then m else m - i - 1 + j;
      assert ks'[m] == ks[o] && r'[m] == r[o];
    }
  }

  /** Smoothing keeps the waypoints that are left in their order. */
  lemma {:induction false} KeptInOrder(p: Planner, trace: seq<seq<Vec>>, scale: real, f: real) returns (ks: seq<nat>)
    requires p.Valid() && Smoothing(p, trace, scale, f) && trace[0] != []
    ensures Kept(trace[0], trace[|trace| - 1], ks)
    decreases |trace|
  {
    hide Tried;
    var n := |trace| - 1;
    if n == 0 {
      ks := seq(|trace[0]|, i => i);
    } else {
      hide Kept;
      var before := trace[..n];
      var hs := KeptInOrder(p, before, scale, f);
      ks := TryKeeps(p, trace[0], before[n - 1], hs, trace[n], scale, f);
    }
  }

  /**
   Drops waypoints whose neighbours see each other, 200 tries or until two are left or time is up; the ends and
   the certificate survive.
   */
  method Shortcut(
    p: Planner, w: World, pts: seq<Vec>, scale: real, f: real, deadline: real, ghost join: int)
    returns (r: seq<Vec>, ghost join': int, ghost trace: seq<seq<Vec>>)
    requires p.Valid() && p.CertifiedBut(pts, join, scale, f)
    modifies w`readings, w`draws
    ensures w.readings >= old(w.readings)
    ensures p.CertifiedBut(r, join', scale, f) && (join == -1 ==> join' == -1)
    ensures r[0] == pts[0] && r[|r| - 1] == pts[|pts| - 1] && |r| <= |pts|
    ensures |pts| >= 2 ==> |r| >= 2
    ensures forall q | q in r :: q in pts
    ensures trace != [] && Smoothing(p, trace, scale, f) && trace[0] == pts && trace[|trace| - 1] == r
    ensures |trace| == 201 || (|trace| < 201 && (|r| <= 2 || w.Expired(deadline, old(w.readings), w.readings)))
  {
    hide p.EdgeOk, p.EdgeNear, Smoothing;
    r, join', trace := pts, join, [pts];
    NoCuts(p, pts, scale, f);
    var it := 0;
    while it < 200
      invariant 0 <= it <= 200 && w.readings >= old(w.readings)
      invariant p.CertifiedBut(r, join', scale, f) && (join == -1 ==> join' == -1)
      invariant r[0] == pts[0] && r[|r| - 1] == pts[|pts| - 1] && |r| <= |pts|
      invariant |pts| >= 2 ==> |r| >= 2
      invariant forall q | q in r :: q in pts
      invariant |trace| == it + 1 && Smoothing(p, trace, scale, f) && trace[0] == pts && trace[it] == r
    {
      if |r| <= 2 {
        break;
      }
      var late := w.Late(deadline);
      if late {
        break;
      }
      var i := w.Integer(0, |r| - 2);
      var j := w.Integer(i + 2, |r|);
      var ok, _ := p.CheckEdge(r[i], r[j], scale, f);
      ghost var was := r;
      if ok {
        CutCertified(p, r, join', i, j, scale, f);
        r, join' := r[..i + 1] + r[j..], CutJoin(join', i, j);
      }
      OneCut(p, trace, i, j, r, scale, f);
      trace := trace + [r];
      it := it + 1;
    }
  }

  lemma NoCuts(p: Planner, pts: seq<Vec>, scale: real, f: real)
    requires p.Valid()
    ensures Smoothing(p, [pts], scale, f)
  {
  }

  lemma OneCut(p: Planner, trace: seq<seq<Vec>>, i: nat, j: nat, r: seq<Vec>, scale: real, f: real)
    requires p.Valid() && Smoothing(p, trace, scale, f) && Cut(p, trace[|trace| - 1], i, j, r, scale, f)
    ensures Smoothing(p, trace + [r], scale, f)
  {
    hide Cut;
    assert Tried(p, trace[|trace| - 1], r, scale, f);
  }

  // ------------------------------------------------------------------------- the join

  /** Walking two met branches: up tree X from its root to the meeting point, down tree Y to its root. */
  lemma JoinedPath(p: Planner, q0: Vec, home: Vec, xs: seq<Vec>, ys: seq<Vec>, scale: real, f: real)
    requires p.Valid() && |q0| == |home| == p.dim
    requires p.CertifiedPath(xs, scale, f) && p.CertifiedPath(ys, scale, f) && |ys| >= 2
    requires p.Contained(xs, q0, home) && p.Contained(ys, q0, home)
    requires Dist(ys[|ys| - 1], xs[|xs| - 1]) < JOIN_TOL
    ensures var pts := xs + Reverse(ys)[1..];
            && p.CertifiedBut(pts, |xs| - 1, scale, f) && p.Contained(pts, q0, home)
            && pts[0] == xs[0] && pts[|pts| - 1] == ys[0]
            && p.CertifiedBut(Reverse(pts), |ys| - 2, scale, f) && p.Contained(Reverse(pts), q0, home)
  {
    hide p.EdgeOk, p.EdgeNear, InBox, Dist;
    p.SpliceCertified(xs, ys, scale, f);
    p.ReverseCertified(xs + Reverse(ys)[1..], |xs| - 1, scale, f);
  }

  /** When the tips coincide the walked path is certified edge by edge, in both directions. */
  lemma JoinedExact(p: Planner, xs: seq<Vec>, ys: seq<Vec>, scale: real, f: real)
    requires p.Valid() && p.CertifiedPath(xs, scale, f) && p.CertifiedPath(ys, scale, f) && |ys| >= 2
    requires ys[|ys| - 1] == xs[|xs| - 1]
    ensures var pts := xs + Reverse(ys)[1..]; p.CertifiedPath(pts, scale, f) && p.CertifiedPath(Reverse(pts), scale, f)
  {
    hide p.EdgeOk, p.EdgeNear;
    DistZero(ys[|ys| - 1], xs[|xs| - 1]);
    p.SpliceCertified(xs, ys, scale, f);
    var pts := xs + Reverse(ys)[1..];
    p.ReverseCertified(ys, -1, scale, f);
    assert pts[|xs| - 1] == Reverse(ys)[0] && pts[|xs|] == Reverse(ys)[1];
    assert p.CertifiedPath(pts, scale, f);
    p.ReverseCertified(pts, -1, scale, f);
  }

  /** A route of this tier: certified but for one join edge, inside the box. */
  ghost predicate RrtGood(p: Planner, q0: Vec, home: Vec, r: Route, join: int, scale: real, f: real)
    requires p.Valid() && |q0| == |home| == p.dim
  {
    && r.path != []
    && p.CertifiedBut([q0] + r.path, join, scale, f)
    && p.Contained([q0] + r.path, q0, home)
    && (r.how == Rrt || r.how == RrtPartial)
    && (r.how == Rrt ==> Reaches(r.path, home))
    && (r.how == RrtPartial ==>
          join == -1 && |r.path[|r.path| - 1]| == p.dim && Dist(r.path[|r.path| - 1], home) < Dist(q0, home))
  }

  lemma Roots(p: Planner, root: Vec, lo: Vec, hi: Vec, scale: real, f: real)
    requires p.Valid() && |root| == p.dim && InBox(root, lo, hi)
    ensures IsTree(p, [root], [-1], root, lo, hi, scale, f)
  {
  }

  lemma BoxOrdered(p: Planner, q0: Vec, home: Vec)
    requires p.Valid() && |q0| == |home| == p.dim
    ensures forall i | 0 <= i < p.dim :: p.BoxLo(q0, home)[i] <= p.BoxHi(q0, home)[i]
  {
  }

  ghost predicate Nodes(p: Planner, nodes: seq<Vec>) {
    nodes != [] && forall i | 0 <= i < |nodes| :: |nodes[i]| == p.dim
  }

  /** Tree A took the step from its nearest node toward q if that edge is certified, and else is as it was. */
  ghost predicate Grew(p: Planner, A: seq<Vec>, PA: seq<int>, A': seq<Vec>, PA': seq<int>, q: Vec, scale: real, f: real)
    requires p.Valid() && Nodes(p, A) && |q| == p.dim
  {
    var ia := Nearest(A, q);
    var qn := Steer(p.rrtStep, A[ia], q);
    if p.EdgeOk(A[ia], qn, scale, f) then A' == A + [qn] && PA' == PA + [ia] else A' == A && PA' == PA
  }

  /** Tree B connected toward tree A's new node, if there is one. */
  ghost predicate Connected(
    p: Planner, A: seq<Vec>, A': seq<Vec>, B: seq<Vec>, PB: seq<int>, B': seq<Vec>, PB': seq<int>)
    requires p.Valid() && Nodes(p, A') && Nodes(p, B) && Nodes(p, B')
  {
    if |A'| > |A| then |B'| == |PB'| && Grown(B, PB, B', PB') && ConnectSteps(p, B, B', PB', A'[|A'| - 1])
    else B' == B && PB' == PB
  }

  /** x is on the way from a to b, as far along it as one step allows: at b if b is within the step, else the step short. */
  ghost predicate OneStepOn(a: Vec, b: Vec, step: real, x: Vec) {
    && |a| == |b| == |x|
    && (exists s: real | 0.0 <= s <= 1.0 :: x == Lerp(a, b, s))
    && Dist(x, b) == if Dist(a, b) > step then Dist(a, b) - step else 0.0
  }

  /** No node is nearer to q than node k, and none before it as near. */
  ghost predicate FirstNearest(nodes: seq<Vec>, q: Vec, k: nat) {
    && k < |nodes| && (forall i | 0 <= i < |nodes| :: |nodes[i]| == |q|)
    && (forall i | 0 <= i < |nodes| :: Dist(nodes[k], q) <= Dist(nodes[i], q))
    && forall i | 0 <= i < k :: Dist(nodes[k], q) < Dist(nodes[i], q)
  }

  lemma SteerIsOneStep(step: real, a: Vec, b: Vec)
    requires |a| == |b| && step >= 0.0
    ensures OneStepOn(a, b, step, Steer(step, a, b))
  {
    hide Lerp, Dist;
    LerpEnds(a, b);
    DistZero(b, b);
    SteerGap(step, a, b);
    var n := Dist(a, b);
    if n > step {
      SteerLong(step, a, b);
      QuotientBound(step, 1.0, n);
      QuotientBoundBelow(0.0, step, n);
      assert Steer(step, a, b) == Lerp(a, b, step / n);
    } else {
      assert Steer(step, a, b) == Lerp(a, b, 1.0);
    }
  }

  /**
   A round of growth, for the draw q: from the node nearest to q a pose one step toward q was tried; the tree has
   it as a child of that node if the edge is certified, and is unchanged if not.
   */
  lemma GrownNode(p: Planner, A: seq<Vec>, PA: seq<int>, A': seq<Vec>, PA': seq<int>, q: Vec, scale: real, f: real)
    returns (k: nat, x: Vec)
    requires p.Valid() && Nodes(p, A) && |q| == p.dim && Grew(p, A, PA, A', PA', q, scale, f)
    ensures FirstNearest(A, q, k) && OneStepOn(A[k], q, p.rrtStep, x) && k < |A| && |x| == p.dim
    ensures if p.EdgeOk(A[k], x, scale, f) then A' == A + [x] && PA' == PA + [k] else A' == A && PA' == PA
  {
    hide p.EdgeOk, Dist, Lerp, Steer, Nearest;
    NearestIsFirst(A, q);
    k := Nearest(A, q);
    x := Steer(p.rrtStep, A[k], q);
    SteerIsOneStep(p.rrtStep, A[k], q);
  }

  lemma NearestIsFirst(nodes: seq<Vec>, q: Vec)
    requires nodes != [] && forall i | 0 <= i < |nodes| :: |nodes[i]| == |q|
    ensures FirstNearest(nodes, q, Nearest(nodes, q))
  {
    hide Dist;
  }

  /**
   A node the connect loop appended: one step on toward the other tree's node qn, from the node nearest to it the
   first time and from the node appended before it after that.
   */
  lemma ConnectNode(p: Planner, B: seq<Vec>, B': seq<Vec>, PB': seq<int>, qn: Vec, i: nat)
    requires p.Valid() && Nodes(p, B) && Nodes(p, B') && |B| <= |B'| == |PB'| && |qn| == p.dim
    requires ConnectSteps(p, B, B', PB', qn) && |B| <= i < |B'|
    ensures 0 <= PB'[i] < i && OneStepOn(B'[PB'[i]], qn, p.rrtStep, B'[i])
    ensures if i == |B| then FirstNearest(B, qn, PB'[i]) else PB'[i] == i - 1
  {
    hide Dist, Lerp, Steer, Nearest;
    NearestIsFirst(B, qn);
    SteerIsOneStep(p.rrtStep, B'[PB'[i]], qn);
  }

  method GrowToward(
    p: Planner, A: seq<Vec>, PA: seq<int>, ghost root: Vec, lo: Vec, hi: Vec, q: Vec, scale: real, f: real)
    returns (A': seq<Vec>, PA': seq<int>, ok: bool)
    requires p.Valid() && IsTree(p, A, PA, root, lo, hi, scale, f) && Nodes(p, A) && |q| == p.dim && InBox(q, lo, hi)
    ensures IsTree(p, A', PA', root, lo, hi, scale, f) && Nodes(p, A') && Grew(p, A, PA, A', PA', q, scale, f)
    ensures ok ==> |A'| == |A| + 1 && InBox(A'[|A|], lo, hi)
    ensures !ok ==> A' == A && PA' == PA
  {
    hide p.EdgeOk, Dist, Steer, Nearest, InBox;
    A', PA' := A, PA;
    var ia := Nearest(A, q);
    var qn := Steer(p.rrtStep, A[ia], q);
    SteerFacts(p.rrtStep, A[ia], q, lo, hi);
    var w;
    ok, w := p.CheckEdge(A[ia], qn, scale, f);
    if ok {
      Append(p, A, PA, root, lo, hi, scale, f, ia, qn);
      A', PA' := A + [qn], PA + [ia];
    }
  }

  /** One round: tree A takes a step toward a random pose, then tree B tries to connect to the new node. */
  method Extend(
    p: Planner, w: World, A: seq<Vec>, PA: seq<int>, B: seq<Vec>, PB: seq<int>, ghost rootA: Vec, ghost rootB: Vec,
    lo: Vec, hi: Vec, scale: real, f: real, deadline: real)
    returns (A': seq<Vec>, PA': seq<int>, B': seq<Vec>, PB': seq<int>, met: bool, ghost qr: Vec)
    requires p.Valid() && w.Ticking()
    requires |lo| == |hi| == p.dim && forall i | 0 <= i < p.dim :: lo[i] <= hi[i]
    requires IsTree(p, A, PA, rootA, lo, hi, scale, f) && Nodes(p, A)
    requires IsTree(p, B, PB, rootB, lo, hi, scale, f) && Nodes(p, B)
    modifies w`readings, w`draws
    ensures w.readings >= old(w.readings)
    ensures IsTree(p, A', PA', rootA, lo, hi, scale, f) && Nodes(p, A')
    ensures IsTree(p, B', PB', rootB, lo, hi, scale, f) && Nodes(p, B')
    ensures |qr| == p.dim && InBox(qr, lo, hi)
    ensures Grew(p, A, PA, A', PA', qr, scale, f) && Connected(p, A, A', B, PB, B', PB')
    ensures met ==> |B'| > |B| && |A'| > |A| && Dist(B'[|B'| - 1], A'[|A'| - 1]) < JOIN_TOL
    ensures !met && |A'| > |A| && !w.Expired(deadline, old(w.readings), w.readings) ==>
              |B'| >= |B| && Blocked(p, B, B', A'[|A'| - 1], scale, f)
  {
    hide p.EdgeOk, Dist, Steer, Nearest, ConnectSteps, InBox, w.Ticking, IsTree, Grew, Blocked;
    var q := w.Uniform(lo, hi);
    qr := q;
    BoxSize(q, lo, hi);
    B', PB', met := B, PB, false;
    var ok;
    A', PA', ok := GrowToward(p, A, PA, rootA, lo, hi, q, scale, f);
    if ok {
      B', PB', met := Connect(p, w, B, PB, rootB, lo, hi, A'[|A|], scale, f, deadline);
      TreeShape(p, B', PB', rootB, lo, hi, scale, f);
    }
  }

  lemma BoxSize(q: Vec, lo: Vec, hi: Vec)
    requires InBox(q, lo, hi)
    ensures |q| == |lo|
  {
  }

  /** Up one branch to where the trees met and down the other, from q0 to home whichever tree is which. */
  function OverMeeting(ca: seq<Vec>, up: seq<Vec>, swapped: bool): seq<Vec>
    requires up != []
  {
    var cb := Reverse(up)[1..];
    if swapped then Reverse(cb) + Reverse(ca) else ca + cb
  }

  /** The route after q0 is some smoothing of the way over the newest nodes of the two trees, where they met. */
  ghost predicate RouteOver(p: Planner, q0: Vec, ts: Trees, path: seq<Vec>, scale: real, f: real)
    requires p.Valid()
  {
    && |ts.A| == |ts.PA| >= 1 && |ts.B| == |ts.PB| >= 1 && PointsDown(ts.PA) && PointsDown(ts.PB)
    && SmoothedFrom(
         p, OverMeeting(Branch(ts.A, ts.PA, |ts.A| - 1), Branch(ts.B, ts.PB, |ts.B| - 1), ts.swapped), [q0] + path, scale, f)
  }

  /** The trees met: walk both branches, orient the result from q0 to home, and smooth it. */
  method JoinTrees(
    p: Planner, w: World, A: seq<Vec>, PA: seq<int>, B: seq<Vec>, PB: seq<int>,
    scale: real, f: real, q0: Vec, home: Vec, swapped: bool)
    returns (r: Option<Route>, ghost join: int)
    requires p.Valid() && |q0| == |home| == p.dim
    requires IsTree(p, A, PA, if swapped then home else q0, p.BoxLo(q0, home), p.BoxHi(q0, home), scale, f)
    requires IsTree(p, B, PB, if swapped then q0 else home, p.BoxLo(q0, home), p.BoxHi(q0, home), scale, f)
    requires |B| >= 2 && |A| >= 1 && Dist(B[|B| - 1], A[|A| - 1]) < JOIN_TOL
    modifies w`readings, w`draws
    ensures w.readings >= old(w.readings)
    ensures r.Some? && r.value.how == Rrt && RrtGood(p, q0, home, r.value, join, scale, f)
    ensures RouteOver(p, q0, Trees(A, PA, B, PB, swapped), r.value.path, scale, f)
    ensures B[|B| - 1] == A[|A| - 1] ==> join == -1
  {
    hide p.EdgeOk, p.EdgeNear, InBox, Dist, p.CertifiedBut, IsTree, Branch, RrtGood, OverMeeting, PointsDown, SmoothedFrom;
    var ca := BranchToTip(p, A, PA, if swapped then home else q0, q0, home, scale, f);
    var up := BranchToTip(p, B, PB, if swapped then q0 else home, q0, home, scale, f);
    var pts := OverMeeting(ca, up, swapped);
    join := Oriented(p, q0, home, ca, up, swapped, pts, scale, f);
    r, join := Smoothed(p, w, pts, scale, f, q0, home, p.smoothTime, join, Rrt);
    WholeRoute(p, q0, home, r.value, join, scale, f);
  }

  lemma WholeRoute(p: Planner, q0: Vec, home: Vec, r: Route, join: int, scale: real, f: real)
    requires p.Valid() && |q0| == |home| == p.dim && r.how == Rrt && r.path != [] && r.path[|r.path| - 1] == home
    requires p.CertifiedBut([q0] + r.path, join, scale, f) && p.Contained([q0] + r.path, q0, home)
    ensures RrtGood(p, q0, home, r, join, scale, f)
  {
  }

  /** Whichever tree is which, the walk over the meeting point runs from q0 to home. */
  lemma Oriented(
    p: Planner, q0: Vec, home: Vec, xs: seq<Vec>, ys: seq<Vec>, swapped: bool, pts: seq<Vec>, scale: real, f: real)
    returns (join: int)
    requires p.Valid() && |q0| == |home| == p.dim
    requires p.CertifiedPath(xs, scale, f) && p.CertifiedPath(ys, scale, f) && |ys| >= 2
    requires p.Contained(xs, q0, home) && p.Contained(ys, q0, home)
    requires xs[0] == (if swapped then home else q0) && ys[0] == (if swapped then q0 else home)
    requires Dist(ys[|ys| - 1], xs[|xs| - 1]) < JOIN_TOL
    requires pts == OverMeeting(xs, ys, swapped)
    ensures p.CertifiedBut(pts, join, scale, f) && p.Contained(pts, q0, home)
    ensures |pts| >= 2 && pts[0] == q0 && pts[|pts| - 1] == home
    ensures ys[|ys| - 1] == xs[|xs| - 1] ==> join == -1
  {
    hide p.EdgeOk, p.EdgeNear, InBox, Dist;
    JoinedPath(p, q0, home, xs, ys, scale, f);
    ReverseConcat(xs, Reverse(ys)[1..]);
    join := if swapped then |ys| - 2 else |xs| - 1;
    if ys[|ys| - 1] == xs[|xs| - 1] {
      JoinedExact(p, xs, ys, scale, f);
      join := -1;
    }
  }

  lemma ReverseConcat<T>(xs: seq<T>, ys: seq<T>)
    ensures Reverse(xs + ys) == Reverse(ys) + Reverse(xs)
  {
  }

  /** The branch from the root to the newest node. */
  method BranchToTip(
    p: Planner, nodes: seq<Vec>, par: seq<int>, ghost root: Vec, ghost q0: Vec, ghost home: Vec, scale: real, f: real)
    returns (b: seq<Vec>)
    requires p.Valid() && |q0| == |home| == p.dim && |nodes| >= 1
    requires IsTree(p, nodes, par, root, p.BoxLo(q0, home), p.BoxHi(q0, home), scale, f)
    ensures |nodes| == |par| && PointsDown(par) && b == Branch(nodes, par, |nodes| - 1)
    ensures p.CertifiedPath(b, scale, f) && p.Contained(b, q0, home)
    ensures b != [] && b[0] == root && b[|b| - 1] == nodes[|nodes| - 1] && (|nodes| >= 2 ==> |b| >= 2)
  {
    hide p.EdgeOk, InBox, p.CertifiedBut, Branch;
    TreePointsDown(p, nodes, par, root, p.BoxLo(q0, home), p.BoxHi(q0, home), scale, f);
    BranchCertified(p, nodes, par, root, p.BoxLo(q0, home), p.BoxHi(q0, home), scale, f, |nodes| - 1);
    b := Chain(nodes, par, |nodes| - 1);
  }

  /** Smoothing on its own clock; the start of the path is not part of the route. */
  method Smoothed(
    p: Planner, w: World, pts: seq<Vec>, scale: real, f: real, q0: Vec, home: Vec, time: real, ghost join: int, how: How)
    returns (r: Option<Route>, ghost join': int)
    requires p.Valid() && |q0| == |home| == p.dim && p.CertifiedBut(pts, join, scale, f)
    requires p.Contained(pts, q0, home) && |pts| >= 2 && pts[0] == q0
    modifies w`readings, w`draws
    ensures w.readings >= old(w.readings)
    ensures r.Some? && r.value.how == how && r.value.path != []
    ensures r.value.path[|r.value.path| - 1] == pts[|pts| - 1]
    ensures p.CertifiedBut([q0] + r.value.path, join', scale, f) && p.Contained([q0] + r.value.path, q0, home)
    ensures join == -1 ==> join' == -1
    ensures SmoothedFrom(p, pts, [q0] + r.value.path, scale, f)
  {
    hide p.CertifiedBut, InBox, Smoothing;
    var now := w.Now();
    var s;
    ghost var trace;
    s, join', trace := Shortcut(p, w, pts, scale, f, now + time, join);
    assert s == [q0] + s[1..];
    assert SmoothedFrom(p, pts, s, scale, f);
    assert forall i | 0 <= i < |s| :: s[i] in pts;
    r := Some(Route(s[1..], how));
  }

  /** Out of time: the branch of the start tree that got closest to home, if that is not the start itself. */
  method ClosestBranch(
    p: Planner, w: World, nodes: seq<Vec>, par: seq<int>, scale: real, f: real, q0: Vec, home: Vec)
    returns (r: Option<Route>)
    requires p.Valid() && |q0| == |home| == p.dim
    requires IsTree(p, nodes, par, q0, p.BoxLo(q0, home), p.BoxHi(q0, home), scale, f) && Nodes(p, nodes)
    modifies w`readings, w`draws
    ensures w.readings >= old(w.readings)
    ensures r.Some? ==> r.value.how == RrtPartial && RrtGood(p, q0, home, r.value, -1, scale, f)
    ensures NearestTip(nodes, if r.Some? then r.value.path[|r.value.path| - 1] else q0, home)
    ensures r.None? <==> forall i | 0 <= i < |nodes| :: Dist(q0, home) <= Dist(nodes[i], home)
  {
    hide p.CertifiedBut, p.Contained, IsTree, Dist, Nearest, NearestTip, Branch, RrtGood, SmoothedFrom;
    var k := Nearest(nodes, home);
    NearestIsTip(p, nodes, par, q0, home, scale, f);
    if k == 0 {
      return None;
    }
    BranchInBox(p, nodes, par, q0, home, scale, f, k);
    var pts := Chain(nodes, par, k);
    ghost var join;
    r, join := Smoothed(p, w, pts, scale, f, q0, home, Min(1.0, p.smoothTime), -1, RrtPartial);
    PartialRoute(p, q0, home, r.value, scale, f);
  }

  /** The scan: the nearest node is a nearest tip, and strictly nearer than the start unless it is the start. */
  lemma NearestIsTip(p: Planner, nodes: seq<Vec>, par: seq<int>, q0: Vec, home: Vec, scale: real, f: real)
    requires p.Valid() && |q0| == |home| == p.dim && Nodes(p, nodes)
    requires IsTree(p, nodes, par, q0, p.BoxLo(q0, home), p.BoxHi(q0, home), scale, f)
    ensures var k := Nearest(nodes, home);
            && NearestTip(nodes, nodes[k], home)
            && (k == 0 ==> nodes[k] == q0) && (k > 0 ==> Dist(nodes[k], home) < Dist(q0, home))
            && (k == 0 <==> forall i | 0 <= i < |nodes| :: Dist(q0, home) <= Dist(nodes[i], home))
  {
    hide p.EdgeOk, InBox, Dist, Nearest;
  }

  /** The certificate of a branch of the start tree. */
  lemma BranchInBox(p: Planner, nodes: seq<Vec>, par: seq<int>, q0: Vec, home: Vec, scale: real, f: real, k: nat)
    requires p.Valid() && |q0| == |home| == p.dim && 0 < k < |nodes|
    requires IsTree(p, nodes, par, q0, p.BoxLo(q0, home), p.BoxHi(q0, home), scale, f)
    ensures |nodes| == |par| && PointsDown(par)
    ensures var b := Branch(nodes, par, k);
            && p.CertifiedPath(b, scale, f) && p.Contained(b, q0, home)
            && |b| >= 2 && b[0] == q0 && b[|b| - 1] == nodes[k]
  {
    hide p.EdgeOk, InBox, p.CertifiedBut, Branch;
    TreePointsDown(p, nodes, par, q0, p.BoxLo(q0, home), p.BoxHi(q0, home), scale, f);
    BranchCertified(p, nodes, par, q0, p.BoxLo(q0, home), p.BoxHi(q0, home), scale, f, k);
  }

  lemma PartialRoute(p: Planner, q0: Vec, home: Vec, r: Route, scale: real, f: real)
    requires p.Valid() && |q0| == |home| == p.dim && r.how == RrtPartial && r.path != []
    requires p.CertifiedBut([q0] + r.path, -1, scale, f) && p.Contained([q0] + r.path, q0, home)
    requires |r.path[|r.path| - 1]| == p.dim && Dist(r.path[|r.path| - 1], home) < Dist(q0, home)
    ensures RrtGood(p, q0, home, r, -1, scale, f)
  {
    hide Dist, p.CertifiedBut, p.Contained;
  }

  // --------------------------------------------------------------------- the whole search

  /** The two trees between rounds. Swapped, A is the one rooted at home. */
  datatype Trees = Trees(A: seq<Vec>, PA: seq<int>, B: seq<Vec>, PB: seq<int>, swapped: bool)

  ghost predicate Rooted(p: Planner, q0: Vec, home: Vec, ts: Trees, scale: real, f: real)
    requires p.Valid() && |q0| == |home| == p.dim
  {
    var lo, hi := p.BoxLo(q0, home), p.BoxHi(q0, home);
    && IsTree(p, ts.A, ts.PA, if ts.swapped then home else q0, lo, hi, scale, f)
    && IsTree(p, ts.B, ts.PB, if ts.swapped then q0 else home, lo, hi, scale, f)
    && Nodes(p, ts.A) && Nodes(p, ts.B)
  }

  /** One round from ts to ts', before the trees change places: some draw of the box, a step toward it, the connect. */
  ghost predicate Round(p: Planner, q0: Vec, home: Vec, ts: Trees, ts': Trees, scale: real, f: real)
    requires p.Valid() && |q0| == |home| == p.dim
  {
    && Rooted(p, q0, home, ts, scale, f) && Rooted(p, q0, home, ts', scale, f) && ts'.swapped == ts.swapped
    && Connected(p, ts.A, ts'.A, ts.B, ts.PB, ts'.B, ts'.PB)
    && exists q: Vec | |q| == p.dim && InBox(q, p.BoxLo(q0, home), p.BoxHi(q0, home)) ::
         Grew(p, ts.A, ts.PA, ts'.A, ts'.PA, q, scale, f)
  }

  function Swap(ts: Trees): Trees {
    Trees(ts.B, ts.PB, ts.A, ts.PA, !ts.swapped)
  }

  /** The trees before each round: the two roots, then one round and a swap after another. */
  ghost predicate Search(p: Planner, q0: Vec, home: Vec, trace: seq<Trees>, scale: real, f: real)
    requires p.Valid() && |q0| == |home| == p.dim
  {
    && trace != [] && trace[0] == Trees([q0], [-1], [home], [-1], false)
    && (forall i | 0 <= i < |trace| :: Rooted(p, q0, home, trace[i], scale, f))
    && forall i, j | 0 <= i && j == i + 1 && j < |trace| :: Round(p, q0, home, trace[i], Swap(trace[j]), scale, f)
  }

  lemma SearchMore(p: Planner, q0: Vec, home: Vec, trace: seq<Trees>, ts: Trees, scale: real, f: real)
    requires p.Valid() && |q0| == |home| == p.dim && Search(p, q0, home, trace, scale, f)
    requires Round(p, q0, home, trace[|trace| - 1], ts, scale, f)
    ensures Search(p, q0, home, trace + [Swap(ts)], scale, f)
  {
    hide IsTree, Connected, Grew, InBox;
    assert Swap(Swap(ts)) == ts;
  }

  /**
   Round i of a search, in plain terms: for some draw in the box the tree in turn tried a pose one step from its
   nearest node, kept it exactly if the edge is certified, and the other tree then walked toward it step by step.
   */
  lemma RoundGrows(p: Planner, q0: Vec, home: Vec, trace: seq<Trees>, scale: real, f: real, i: nat)
    returns (q: Vec, k: nat, x: Vec)
    requires p.Valid() && |q0| == |home| == p.dim && Search(p, q0, home, trace, scale, f) && i + 1 < |trace|
    ensures |q| == p.dim && InBox(q, p.BoxLo(q0, home), p.BoxHi(q0, home))
    ensures var ts, next := trace[i], trace[i + 1];
            && FirstNearest(ts.A, q, k) && OneStepOn(ts.A[k], q, p.rrtStep, x) && |x| == p.dim
            && (if p.EdgeOk(ts.A[k], x, scale, f) then next.B == ts.A + [x] && next.PB == ts.PA + [k]
                else next.B == ts.A && next.PB == ts.PA && next.A == ts.B && next.PA == ts.PB)
            && ts.B <= next.A && ts.PB <= next.PA && |next.PA| == |next.A| && ts.B != [] && next.swapped == !ts.swapped
            && forall j | |ts.B| <= j < |next.A| ::
                 && 0 <= next.PA[j] < j && OneStepOn(next.A[next.PA[j]], x, p.rrtStep, next.A[j])
                 && if j == |ts.B| then FirstNearest(ts.B, x, next.PA[j]) else next.PA[j] == j - 1
  {
    hide p.EdgeOk, InBox, Dist, FirstNearest, OneStepOn, IsTree, Grew, ConnectSteps;
    var ts, after := trace[i], Swap(trace[i + 1]);
    var n := i + 1;
    assert Round(p, q0, home, trace[i], Swap(trace[n]), scale, f);
    q :| |q| == p.dim && InBox(q, p.BoxLo(q0, home), p.BoxHi(q0, home)) && Grew(p, ts.A, ts.PA, after.A, after.PA, q, scale, f);
    k, x := GrownNode(p, ts.A, ts.PA, after.A, after.PA, q, scale, f);
    TreeShapes(p, q0, home, ts, scale, f);
    TreeShapes(p, q0, home, after, scale, f);
    if |after.A| > |ts.A| {
      forall j | |ts.B| <= j < |after.B|
        ensures 0 <= after.PB[j] < j && OneStepOn(after.B[after.PB[j]], x, p.rrtStep, after.B[j])
        ensures if j == |ts.B| then FirstNearest(ts.B, x, after.PB[j]) else after.PB[j] == j - 1
      {
        ConnectNode(p, ts.B, after.B, after.PB, x, j);
      }
    }
  }

  lemma TreeShapes(p: Planner, q0: Vec, home: Vec, ts: Trees, scale: real, f: real)
    requires p.Valid() && |q0| == |home| == p.dim && Rooted(p, q0, home, ts, scale, f)
    ensures |ts.A| == |ts.PA| > 0 && |ts.B| == |ts.PB| > 0
  {
    hide p.EdgeOk, InBox;
  }

  /** The flag is right because it is the parity of the rounds. */
  lemma {:induction false} SwappedIsParity(
    p: Planner, q0: Vec, home: Vec, trace: seq<Trees>, scale: real, f: real, i: nat)
    requires p.Valid() && |q0| == |home| == p.dim && Search(p, q0, home, trace, scale, f) && i < |trace|
    ensures trace[i].swapped <==> i % 2 == 1
  {
    hide Rooted, Connected, Grew, InBox;
    if i > 0 {
      SwappedIsParity(p, q0, home, trace, scale, f, i - 1);
      assert Round(p, q0, home, trace[i - 1], Swap(trace[i]), scale, f);
    }
  }

  function StartTree(ts: Trees): seq<Vec> {
    if ts.swapped then ts.B else ts.A
  }

  /** tip is a node of the tree and none is nearer to home. */
  ghost predicate NearestTip(nodes: seq<Vec>, tip: Vec, home: Vec)
    requires forall i | 0 <= i < |nodes| :: |nodes[i]| == |home|
  {
    exists k | 0 <= k < |nodes| :: tip == nodes[k] && forall i | 0 <= i < |nodes| :: Dist(nodes[k], home) <= Dist(nodes[i], home)
  }

  /** The trees met in the round from the last state of the trace to `end`, or the deadline came with nothing grown. */
  ghost predicate Stopped(p: Planner, q0: Vec, home: Vec, trace: seq<Trees>, end: Trees, met: bool, scale: real, f: real)
    requires p.Valid() && |q0| == |home| == p.dim
  {
    && Search(p, q0, home, trace, scale, f)
    && if met then Round(p, q0, home, trace[|trace| - 1], end, scale, f) else end == trace[|trace| - 1]
  }

  /**
   The tier as a whole, for every clock and every draw: the rounds it made, and what it returns of the trees
   they left. A meeting `gap` of zero (the connect loop copied the other tree's node) leaves no edge that is
   only nearly certified.
   */
  method RrtTier(p: Planner, w: World, q0: Vec, home: Vec, scale: real, f: real, deadline: real)
    returns (r: Option<Route>, ghost join: int, ghost gap: real, ghost trace: seq<Trees>, ghost end: Trees)
    requires p.Valid() && |q0| == |home| == p.dim && w.Ticking()
    modifies w`readings, w`draws
    ensures w.readings >= old(w.readings)
    ensures r.Some? ==> RrtGood(p, q0, home, r.value, join, scale, f)
    ensures Stopped(p, q0, home, trace, end, r.Some? && r.value.how == Rrt, scale, f)
    ensures Rooted(p, q0, home, end, scale, f)
    ensures r.Some? && r.value.how == Rrt ==>
              && gap == Dist(end.B[|end.B| - 1], end.A[|end.A| - 1]) < JOIN_TOL && (gap == 0.0 ==> join == -1)
    ensures r.Some? && r.value.how == Rrt ==> RouteOver(p, q0, end, r.value.path, scale, f)
    ensures r.Some? && r.value.how == RrtPartial ==> NearestTip(StartTree(end), r.value.path[|r.value.path| - 1], home)
    ensures r.None? ==> NearestTip(StartTree(end), q0, home)
    ensures r.None? || r.value.how == RrtPartial ==> w.Expired(deadline, old(w.readings), w.readings)
  {
    hide p.EdgeOk, p.EdgeNear, InBox, Dist, Steer, Nearest, IsTree, p.CertifiedBut, p.Contained, Grew, Connected, Search, Round, NearestTip, RouteOver;
    var lo, hi := p.BoxLo(q0, home), p.BoxHi(q0, home);
    EndsContained(p, q0, home);
    var A, PA, B, PB := [q0], [-1], [home], [-1];
    BoxOrdered(p, q0, home);
    Roots(p, q0, lo, hi, scale, f);
    Roots(p, home, lo, hi, scale, f);
    var swapped := false;
    assert w.Reached(deadline);
    ghost var last: nat :| w.PassedBy(deadline, last);
    join, gap := -1, 0.0;
    trace := [Trees(A, PA, B, PB, swapped)];
    SearchStarts(p, q0, home, scale, f);
    while true
      invariant w.readings >= old(w.readings)
      invariant Search(p, q0, home, trace, scale, f) && trace != [] && trace[|trace| - 1] == Trees(A, PA, B, PB, swapped)
      invariant Rooted(p, q0, home, Trees(A, PA, B, PB, swapped), scale, f)
      decreases last - w.readings
    {
      ghost var before := w.readings;
      var late := w.Late(deadline);
      if late {
        break;
      }
      w.OnTime(deadline, before, last);
      var met; ghost var qr;
      ghost var was := Trees(A, PA, B, PB, swapped);
      A, PA, B, PB, met, qr := Extend(
        p, w, A, PA, B, PB, if swapped then home else q0, if swapped then q0 else home, lo, hi, scale, f, deadline);
      end := Trees(A, PA, B, PB, swapped);
      RoundMade(p, q0, home, was, end, qr, scale, f);
      if met {
        gap := Dist(B[|B| - 1], A[|A| - 1]);
        DistZero(B[|B| - 1], A[|A| - 1]);
        r, join := JoinTrees(p, w, A, PA, B, PB, scale, f, q0, home, swapped);
        return;
      }
      SearchMore(p, q0, home, trace, end, scale, f);
      trace := trace + [Swap(end)];
      A, PA, B, PB := B, PB, A, PA;
      swapped := !swapped;
    }
    end := Trees(A, PA, B, PB, swapped);
    r := ClosestBranch(p, w, if swapped then B else A, if swapped then PB else PA, scale, f, q0, home);
  }

  lemma SearchStarts(p: Planner, q0: Vec, home: Vec, scale: real, f: real)
    requires p.Valid() && |q0| == |home| == p.dim
    requires Rooted(p, q0, home, Trees([q0], [-1], [home], [-1], false), scale, f)
    ensures Search(p, q0, home, [Trees([q0], [-1], [home], [-1], false)], scale, f)
  {
  }

  lemma RoundMade(p: Planner, q0: Vec, home: Vec, ts: Trees, ts': Trees, q: Vec, scale: real, f: real)
    requires p.Valid() && |q0| == |home| == p.dim
    requires Rooted(p, q0, home, ts, scale, f) && Rooted(p, q0, home, ts', scale, f) && ts'.swapped == ts.swapped
    requires |q| == p.dim && InBox(q, p.BoxLo(q0, home), p.BoxHi(q0, home))
    requires Connected(p, ts.A, ts'.A, ts.B, ts.PB, ts'.B, ts'.PB) && Grew(p, ts.A, ts.PA, ts'.A, ts'.PA, q, scale, f)
    ensures Round(p, q0, home, ts, ts', scale, f)
  {
    hide IsTree, Connected, Grew, InBox;
  }
}
