// The four deterministic tiers of the home planner: direct, staged, greedy and detour.
module Tiers {
  import opened Options
  import opened JointSpace
  import opened EdgeCheck
  import opened Environment
  import opened Paths

  datatype How = Direct | Staged(group: nat) | OneJointAtATime | BackedOut(joint: nat, rest: How) | Rrt | RrtPartial

  datatype Route = Route(path: seq<Vec>, how: How)

  /** A route whose every edge from q0 on is certified and stays in the box. */
  ghost predicate ExactRoute(p: Planner, q0: Vec, home: Vec, path: seq<Vec>, scale: real, f: real)
    requires p.Valid() && |q0| == |home| == p.dim
  {
    path != [] && p.CertifiedPath([q0] + path, scale, f) && p.Contained([q0] + path, q0, home)
  }

  ghost predicate Reaches(path: seq<Vec>, home: Vec) {
    path != [] && path[|path| - 1] == home
  }

  lemma EndsContained(p: Planner, q0: Vec, home: Vec)
    requires p.Valid() && |q0| == |home| == p.dim
    ensures InBox(q0, p.BoxLo(q0, home), p.BoxHi(q0, home))
    ensures InBox(home, p.BoxLo(q0, home), p.BoxHi(q0, home))
  {
  }

  // ---------------------------------------------------------------------------- direct

  method DirectTier(p: Planner, q0: Vec, home: Vec, scale: real, f: real) returns (r: Option<Route>)
    requires p.Valid() && |q0| == |home| == p.dim
    ensures r.Some? <==> p.EdgeOk(q0, home, scale, f)
    ensures r.Some? ==> r.value == Route([home], How.Direct) && ExactRoute(p, q0, home, r.value.path, scale, f)
  {
    var ok, w := p.CheckEdge(q0, home, scale, f);
    EndsContained(p, q0, home);
    r := if ok then Some(Route([home], How.Direct)) else None;
  }

  // ---------------------------------------------------------------------------- staged

  predicate Contains(s: string, sub: string) {
    |sub| <= |s| && (s[..|sub|] == sub || (s != [] && Contains(s[1..], sub)))
  }

  /** The indices below n that satisfy keep, in increasing order. */
  function Indices(n: nat, keep: nat -> bool): (xs: seq<nat>)
    ensures forall x | x in xs :: x < n && keep(x)
    ensures forall x: nat | x < n && keep(x) :: x in xs
  {
    if n == 0 then [] else if keep(n - 1) then Indices(n - 1, keep) + [n - 1] else Indices(n - 1, keep)
  }

  function Wrist(arm: seq<string>): (g: seq<nat>)
    ensures forall i | i in g :: i < |arm|
  {
    Indices(|arm|, (i: nat) => i < |arm| && Contains(arm[i], "wrist"))
  }

  function Pan(arm: seq<string>): (g: seq<nat>)
    ensures forall i | i in g :: i < |arm|
  {
    Indices(|arm|, (i: nat) => i < |arm| && Contains(arm[i], "pan"))
  }

  function Upper(arm: seq<string>): (g: seq<nat>)
    ensures forall i | i in g :: i < |arm|
  {
    Indices(|arm|, (i: nat) => i !in Wrist(arm) && i !in Pan(arm))
  }

  /** The groups in the order they are tried. */
  function Groups(arm: seq<string>): (gs: seq<seq<nat>>)
    ensures |gs| == 5
    ensures forall g | g in gs :: forall i | i in g :: i < |arm|
  {
    [Wrist(arm), Upper(arm), Pan(arm) + Upper(arm), Upper(arm) + Wrist(arm), Pan(arm)]
  }

  /** q0 with the joints of one group already at home. */
  function GroupHome(q0: Vec, home: Vec, g: seq<nat>): (w: Vec)
    requires |q0| == |home|
    ensures |w| == |q0|
  {
    seq(|q0|, i requires 0 <= i < |q0| => if i in g then home[i] else q0[i])
  }

  ghost predicate StageWorks(p: Planner, q0: Vec, home: Vec, g: seq<nat>, scale: real, f: real)
    requires p.Valid() && |q0| == |home| == p.dim
  {
    var w := GroupHome(q0, home, g);
    && g != [] && |g| < p.dim && Dist(q0, w) >= 0.0001
    && p.EdgeOk(q0, w, scale, f) && p.EdgeOk(w, home, scale, f)
  }

  ghost predicate FirstStage(p: Planner, q0: Vec, home: Vec, j: nat, scale: real, f: real)
    requires p.Valid() && |q0| == |home| == p.dim && j < 5
  {
    && StageWorks(p, q0, home, Groups(p.arm)[j], scale, f)
    && forall i: nat | i < j :: !StageWorks(p, q0, home, Groups(p.arm)[i], scale, f)
  }

  ghost predicate SomeStageWorks(p: Planner, q0: Vec, home: Vec, scale: real, f: real)
    requires p.Valid() && |q0| == |home| == p.dim
  {
    exists j: nat | j < 5 :: StageWorks(p, q0, home, Groups(p.arm)[j], scale, f)
  }

  /** The for loop that copies the group's home values. */
  method FoldGroup(q0: Vec, home: Vec, g: seq<nat>) returns (w: Vec)
    requires |q0| == |home| && forall i | i in g :: i < |q0|
    ensures w == GroupHome(q0, home, g)
  {
    w := q0;
    var k := 0;
    while k < |g|
      invariant 0 <= k <= |g| && |w| == |q0|
      invariant forall i | 0 <= i < |q0| :: w[i] == if i in g[..k] then home[i] else q0[i]
    {
      assert g[k] in g;
      w := w[g[k] := home[g[k]]];
      assert g[..k + 1] == g[..k] + [g[k]];
      k := k + 1;
    }
    assert g[..|g|] == g;
  }

  /** The first group whose two-leg path is certified; None means no group's is, unless the clock cut in. */
  method StagedTier(p: Planner, w: World, q0: Vec, home: Vec, scale: real, f: real, deadline: real)
    returns (r: Option<Route>)
    requires p.Valid() && |q0| == |home| == p.dim
    modifies w`readings
    ensures w.readings >= old(w.readings)
    ensures r.Some? ==>
              exists j: nat | j < 5 ::
                && FirstStage(p, q0, home, j, scale, f)
                && r.value == Route([GroupHome(q0, home, Groups(p.arm)[j]), home], Staged(j))
    ensures r.None? ==> w.Expired(deadline, old(w.readings), w.readings) || !SomeStageWorks(p, q0, home, scale, f)
  {
    hide Dist, GroupHome, Groups, p.EdgeOk;
    var gs := Groups(p.arm);
    var j := 0;
    while j < |gs|
      invariant 0 <= j <= |gs| && w.readings >= old(w.readings)
      invariant forall i: nat | i < j :: !StageWorks(p, q0, home, gs[i], scale, f)
    {
      var late := w.Late(deadline);
      if late {
        return None;
      }
      var g := gs[j];
      assert g in gs;
      if g != [] && |g| < |q0| {
        var mid := FoldGroup(q0, home, g);
        if Dist(q0, mid) >= 0.0001 {
          var ok1, _ := p.CheckEdge(q0, mid, scale, f);
          if ok1 {
            var ok2, _ := p.CheckEdge(mid, home, scale, f);
            if ok2 {
              assert FirstStage(p, q0, home, j, scale, f);
              return Some(Route([mid, home], Staged(j)));
            }
          }
        }
      }
      j := j + 1;
    }
    r := None;
  }

  lemma StagedExact(p: Planner, q0: Vec, home: Vec, g: seq<nat>, scale: real, f: real)
    requires p.Valid() && |q0| == |home| == p.dim && StageWorks(p, q0, home, g, scale, f)
    ensures ExactRoute(p, q0, home, [GroupHome(q0, home, g), home], scale, f)
  {
  }

  // ---------------------------------------------------------------------------- greedy

  /** One joint moved the given fraction of the way to its home value. */
  function MoveJoint(cur: Vec, home: Vec, i: nat, frac: real): (q: Vec)
    requires |cur| == |home| && i < |cur|
    ensures |q| == |cur|
  {
    cur[i := Blend(cur[i], home[i], frac)]
  }

  predicate NotHome(cur: Vec, home: Vec, i: nat)
    requires |cur| == |home|
  {
    i < |cur| && Abs(home[i] - cur[i]) > 0.0001
  }

  /** The largest of the three fractions whose move is certified. */
  ghost function LargestMove(p: Planner, cur: Vec, home: Vec, i: nat, scale: real, f: real): Option<Vec>
    requires p.Valid() && |cur| == |home| == p.dim && i < p.dim
  {
    if p.EdgeOk(cur, MoveJoint(cur, home, i, 1.0), scale, f) then Some(MoveJoint(cur, home, i, 1.0))
    else if p.EdgeOk(cur, MoveJoint(cur, home, i, 0.6), scale, f) then Some(MoveJoint(cur, home, i, 0.6))
    else if p.EdgeOk(cur, MoveJoint(cur, home, i, 0.3), scale, f) then Some(MoveJoint(cur, home, i, 0.3))
    else None
  }

  /** Joint i's largest certified move, and no joint before `upto` offers one with more clearance. */
  ghost predicate BestMove(p: Planner, cur: Vec, home: Vec, i: nat, next: Vec, upto: nat, scale: real, f: real)
    requires p.Valid() && |cur| == |home| == p.dim && upto <= p.dim
  {
    && NotHome(cur, home, i) && i < upto
    && LargestMove(p, cur, home, i, scale, f) == Some(next)
    && |next| == p.dim
    && forall j: nat | j < upto && NotHome(cur, home, j) && LargestMove(p, cur, home, j, scale, f).Some? ::
         var w := Clearance(p.margin, cur, LargestMove(p, cur, home, j, scale, f).value, scale, p.step);
         var best := Clearance(p.margin, cur, next, scale, p.step);
         w <= best && (w == best ==> i <= j)
  }

  ghost predicate NoMove(p: Planner, cur: Vec, home: Vec, upto: nat, scale: real, f: real)
    requires p.Valid() && |cur| == |home| == p.dim && upto <= p.dim
  {
    forall j: nat | j < upto && NotHome(cur, home, j) :: LargestMove(p, cur, home, j, scale, f).None?
  }

  ghost predicate GreedyStep(p: Planner, cur: Vec, next: Vec, home: Vec, scale: real, f: real)
    requires p.Valid() && |cur| == |home| == p.dim
  {
    exists i: nat :: BestMove(p, cur, home, i, next, p.dim, scale, f)
  }

  /** The fraction loop of one joint. */
  method TryFractions(p: Planner, cur: Vec, home: Vec, i: nat, scale: real, f: real)
    returns (cand: Option<Vec>, w: real)
    requires p.Valid() && |cur| == |home| == p.dim && i < p.dim
    ensures cand == LargestMove(p, cur, home, i, scale, f)
    ensures cand.Some? ==> |cand.value| == p.dim && w == Clearance(p.margin, cur, cand.value, scale, p.step)
  {
    hide p.EdgeOk, MoveJoint, Clearance;
    var fracs := [1.0, 0.6, 0.3];
    var k := 0;
    w := 0.0;
    while k < |fracs|
      invariant 0 <= k <= 3
      invariant k > 0 ==> !p.EdgeOk(cur, MoveJoint(cur, home, i, 1.0), scale, f)
      invariant k > 1 ==> !p.EdgeOk(cur, MoveJoint(cur, home, i, 0.6), scale, f)
      invariant k > 2 ==> !p.EdgeOk(cur, MoveJoint(cur, home, i, 0.3), scale, f)
    {
      var next := MoveJoint(cur, home, i, fracs[k]);
      var ok, m := p.CheckEdge(cur, next, scale, f);
      if ok {
        return Some(next), m;
      }
      k := k + 1;
    }
    cand := None;
  }

  /** The joint loop: the move that leaves the most clearance, the first such on a tie. */
  method BestSingleMove(p: Planner, cur: Vec, home: Vec, scale: real, f: real) returns (best: Option<Vec>)
    requires p.Valid() && |cur| == |home| == p.dim
    ensures best.None? ==> NoMove(p, cur, home, p.dim, scale, f)
    ensures best.Some? ==> |best.value| == p.dim && GreedyStep(p, cur, best.value, home, scale, f)
  {
    hide p.EdgeOk, LargestMove, Clearance, NotHome;
    best := None;
    var bestW := 0.0;
    ghost var bestI: nat := 0;
    var i: nat := 0;
    while i < |cur|
      invariant i <= p.dim
      invariant best.None? ==> NoMove(p, cur, home, i, scale, f)
      invariant best.Some? ==> BestMove(p, cur, home, bestI, best.value, i, scale, f)
      invariant best.Some? ==> bestW == Clearance(p.margin, cur, best.value, scale, p.step)
    {
      if NotHome(cur, home, i) {
        var cand, w := TryFractions(p, cur, home, i, scale, f);
        if cand.Some? && (best.None? || w > bestW) {
          best, bestW := cand, w;
          bestI := i;
        }
      }
      i := i + 1;
    }
    assert best.Some? ==> BestMove(p, cur, home, bestI, best.value, p.dim, scale, f);
  }

  /** A sequence of greedy steps. */
  ghost predicate GreedyWalk(p: Planner, pts: seq<Vec>, home: Vec, scale: real, f: real)
    requires p.Valid() && |home| == p.dim
  {
    && pts != []
    && (forall k | 0 <= k < |pts| :: |pts[k]| == p.dim)
    && forall k | 0 <= k < |pts| - 1 :: GreedyStep(p, pts[k], pts[k + 1], home, scale, f)
  }

  ghost predicate AllHome(cur: Vec, home: Vec)
    requires |cur| == |home|
  {
    forall i: nat | i < |cur| :: !NotHome(cur, home, i)
  }

  /** Too long, nothing to do, or stuck short of home. */
  ghost predicate GreedyStops(p: Planner, walk: seq<Vec>, home: Vec, scale: real, f: real)
    requires p.Valid() && |home| == p.dim && GreedyWalk(p, walk, home, scale, f)
  {
    || |walk| > 3 * p.dim + 1
    || (|walk| == 1 && AllHome(walk[0], home))
    || (!AllHome(walk[|walk| - 1], home) && NoMove(p, walk[|walk| - 1], home, p.dim, scale, f))
  }

  /** The whole walk, and why it ended; the clock is not needed for it to end. */
  method GreedyTier(p: Planner, w: World, q0: Vec, home: Vec, scale: real, f: real, deadline: real)
    returns (r: Option<Route>, ghost walk: seq<Vec>)
    requires p.Valid() && |q0| == |home| == p.dim
    modifies w`readings
    ensures w.readings >= old(w.readings)
    ensures GreedyWalk(p, walk, home, scale, f) && walk[0] == q0
    ensures r.Some? ==> && r.value == Route(walk[1..], OneJointAtATime) && 2 <= |walk| <= 3 * p.dim + 1
                        && AllHome(walk[|walk| - 1], home)
    ensures r.None? ==> w.Expired(deadline, old(w.readings), w.readings) || GreedyStops(p, walk, home, scale, f)
  {
    hide GreedyStep, NoMove, NotHome;
    var cur := q0;
    var path: seq<Vec> := [];
    walk := [q0];
    while true
      invariant walk == [q0] + path && cur == walk[|path|] && |cur| == p.dim
      invariant w.readings >= old(w.readings)
      invariant |path| <= 3 * p.dim + 1
      invariant GreedyWalk(p, walk, home, scale, f)
      decreases 3 * p.dim + 1 - |path|
    {
      var late := w.Late(deadline);
      if late || |path| > 3 * |cur| {
        return None, walk;
      }
      var left := Indices(|cur|, (i: nat) => NotHome(cur, home, i));
      if left == [] {
        forall i: nat | i < |cur| ensures !NotHome(cur, home, i) {
          assert i !in left;
        }
        r := if path != [] then Some(Route(path, OneJointAtATime)) else None;
        return r, walk;
      }
      assert left[0] in left && NotHome(cur, home, left[0]);
      var best := BestSingleMove(p, cur, home, scale, f);
      if best.None? {
        return None, walk;
      }
      path := path + [best.value];
      cur := best.value;
      walk := walk + [best.value];
    }
  }

  // ------------------------------------------------------------- what a greedy walk is

  /** Every joint of q lies between its value in cur and home: no joint moves away from home. */
  ghost predicate Toward(cur: Vec, q: Vec, home: Vec)
    requires |cur| == |q| == |home|
  {
    forall i | 0 <= i < |cur| :: Min(cur[i], home[i]) <= q[i] <= Max(cur[i], home[i])
  }

  lemma StepFacts(p: Planner, cur: Vec, next: Vec, home: Vec, scale: real, f: real)
    requires p.Valid() && |cur| == |home| == p.dim && GreedyStep(p, cur, next, home, scale, f)
    ensures |next| == p.dim && p.EdgeOk(cur, next, scale, f) && Toward(cur, next, home)
  {
  }

  /**
   A greedy walk is certified edge by edge, moves no joint away from its home value, and so never
   leaves the box spanned by its start and home.
   */
  lemma {:induction false} GreedyWalkToward(p: Planner, pts: seq<Vec>, home: Vec, scale: real, f: real, k: nat)
    requires p.Valid() && |home| == p.dim && GreedyWalk(p, pts, home, scale, f) && k < |pts|
    ensures Toward(pts[0], pts[k], home)
    ensures k > 0 ==> p.EdgeOk(pts[k - 1], pts[k], scale, f) && Toward(pts[k - 1], pts[k], home)
  {
    hide p.EdgeOk, GreedyStep;
    if k > 0 {
      GreedyWalkToward(p, pts, home, scale, f, k - 1);
      assert GreedyStep(p, pts[k - 1], pts[k - 1 + 1], home, scale, f);
      StepFacts(p, pts[k - 1], pts[k], home, scale, f);
    }
  }

  lemma TowardInBox(p: Planner, q0: Vec, q: Vec, home: Vec)
    requires p.Valid() && |q0| == |q| == |home| == p.dim && Toward(q0, q, home)
    ensures InBox(q, p.BoxLo(q0, home), p.BoxHi(q0, home))
  {
  }

  lemma GreedyExact(p: Planner, walk: seq<Vec>, home: Vec, scale: real, f: real)
    requires p.Valid() && |home| == p.dim && GreedyWalk(p, walk, home, scale, f) && |walk| >= 2
    ensures ExactRoute(p, walk[0], home, walk[1..], scale, f)
  {
    hide p.EdgeOk, GreedyStep, Toward;
    assert [walk[0]] + walk[1..] == walk;
    forall k: nat | k < |walk|
      ensures InBox(walk[k], p.BoxLo(walk[0], home), p.BoxHi(walk[0], home))
      ensures k > 0 ==> p.EdgeOk(walk[k - 1], walk[k], scale, f)
    {
      GreedyWalkToward(p, walk, home, scale, f, k);
      TowardInBox(p, walk[0], walk[k], home);
    }
    forall i | 0 <= i < |walk| - 1 ensures p.EdgeOk(walk[i], walk[i + 1], scale, f) {
      assert p.EdgeOk(walk[i + 1 - 1], walk[i + 1], scale, f);
    }
  }

  // ---------------------------------------------------------------------------- detour

  const PI: real := 3.141592653589793

  datatype Detour = Detour(delta: real, joint: nat, sgn: real)

  /** The back-out moves of one angle, joint by joint, both directions each. */
  function DetoursAt(delta: real, upto: nat): (ds: seq<Detour>)
    ensures forall d | d in ds :: d.joint < upto && (d.sgn == 1.0 || d.sgn == -1.0) && d.delta == delta
  {
    if upto == 0 then []
    else DetoursAt(delta, upto - 1) + [Detour(delta, upto - 1, 1.0), Detour(delta, upto - 1, -1.0)]
  }

  /** The three nested loops, in order: 45, 90 and 135 degrees. */
  function Detours(n: nat): (ds: seq<Detour>)
    ensures forall d | d in ds :: d.joint < n && (d.sgn == 1.0 || d.sgn == -1.0)
  {
    DetoursAt(PI / 4.0, n) + DetoursAt(PI / 2.0, n) + DetoursAt(3.0 * PI / 4.0, n)
  }

  /** One joint backed out by the angle, clipped to its limits. */
  function BackOut(p: Planner, q0: Vec, d: Detour): (w: Vec)
    requires p.dim == |q0| == |p.lo| == |p.hi| && d.joint < p.dim
    ensures |w| == |q0|
  {
    q0[d.joint := Clip(q0[d.joint] + d.sgn * d.delta, p.lo[d.joint], p.hi[d.joint])]
  }

  ghost predicate DetourStarts(p: Planner, q0: Vec, d: Detour, scale: real, f: real)
    requires p.Valid() && |q0| == p.dim && d.joint < p.dim
  {
    var w := BackOut(p, q0, d);
    Abs(w[d.joint] - q0[d.joint]) >= 0.001 && p.EdgeOk(q0, w, scale, f)
  }

  /** A back-out from which home is one or two certified legs away. */
  ghost predicate DetourWorks(p: Planner, q0: Vec, home: Vec, d: Detour, scale: real, f: real)
    requires p.Valid() && |q0| == |home| == p.dim && d.joint < p.dim
  {
    var w := BackOut(p, q0, d);
    DetourStarts(p, q0, d, scale, f) && (p.EdgeOk(w, home, scale, f) || SomeStageWorks(p, w, home, scale, f))
  }

  ghost predicate DetourRoute(p: Planner, q0: Vec, home: Vec, d: Detour, r: Route, scale: real, f: real)
    requires p.Valid() && |q0| == |home| == p.dim && d.joint < p.dim
  {
    var w := BackOut(p, q0, d);
    && DetourStarts(p, q0, d, scale, f)
    && if p.EdgeOk(w, home, scale, f) then r == Route([w, home], BackedOut(d.joint, How.Direct))
       else exists j: nat | j < 5 ::
              && FirstStage(p, w, home, j, scale, f)
              && r == Route([w, GroupHome(w, home, Groups(p.arm)[j]), home], BackedOut(d.joint, Staged(j)))
  }

  method DetourTier(p: Planner, w: World, q0: Vec, home: Vec, scale: real, f: real, deadline: real)
    returns (r: Option<Route>)
    requires p.Valid() && |q0| == |home| == p.dim && w.Monotonic()
    modifies w`readings
    ensures w.readings >= old(w.readings)
    ensures r.Some? ==>
              exists k: nat | k < |Detours(p.dim)| ::
                && DetourRoute(p, q0, home, Detours(p.dim)[k], r.value, scale, f)
                && forall i: nat | i < k :: !DetourWorks(p, q0, home, Detours(p.dim)[i], scale, f)
    ensures r.None? ==> w.Expired(deadline, old(w.readings), w.readings) ||
                        forall i: nat | i < |Detours(p.dim)| :: !DetourWorks(p, q0, home, Detours(p.dim)[i], scale, f)
  {
    hide BackOut, GroupHome, Groups, p.EdgeOk, StageWorks, Detours, FirstStage, SomeStageWorks;
    var ds := Detours(p.dim);
    var k := 0;
    while k < |ds|
      invariant 0 <= k <= |ds| && w.readings >= old(w.readings)
      invariant w.Expired(deadline, old(w.readings), w.readings) ||
                forall i: nat | i < k :: !DetourWorks(p, q0, home, ds[i], scale, f)
    {
      ghost var before := w.readings;
      var late := w.Late(deadline);
      if late {
        return None;
      }
      NotLateYet(w, deadline, old(w.readings), before);
      var d := ds[k];
      assert d in ds;
      var mid := BackOut(p, q0, d);
      if Abs(mid[d.joint] - q0[d.joint]) >= 0.001 {
        var ok, _ := p.CheckEdge(q0, mid, scale, f);
        if ok {
          var ok2, _ := p.CheckEdge(mid, home, scale, f);
          if ok2 {
            return Some(Route([mid, home], BackedOut(d.joint, How.Direct)));
          }
          var sub := StagedTier(p, w, mid, home, scale, f, deadline);
          if sub.Some? {
            return Some(Route([mid] + sub.value.path, BackedOut(d.joint, sub.value.how)));
          }
        }
      }
      k := k + 1;
    }
    r := None;
  }

  /** The reading numbered n is on time, so no earlier one was late. */
  lemma NotLateYet(w: World, deadline: real, from: nat, n: nat)
    requires w.Monotonic() && from <= n && !w.PassedBy(deadline, n)
    ensures !w.Expired(deadline, from, n)
  {
  }

  lemma BackOutContained(p: Planner, q0: Vec, home: Vec, d: Detour)
    requires p.Valid() && |q0| == |home| == p.dim && d.joint < p.dim
    ensures InBox(BackOut(p, q0, d), p.BoxLo(q0, home), p.BoxHi(q0, home))
  {
  }

  /** Staging from a backed-out pose stays in the box spanned by the original start. */
  lemma StageFromContained(p: Planner, q0: Vec, mid: Vec, home: Vec, g: seq<nat>)
    requires p.Valid() && |q0| == |mid| == |home| == p.dim
    requires InBox(mid, p.BoxLo(q0, home), p.BoxHi(q0, home))
    ensures InBox(GroupHome(mid, home, g), p.BoxLo(q0, home), p.BoxHi(q0, home))
  {
  }

  lemma DetourExact(p: Planner, q0: Vec, home: Vec, d: Detour, r: Route, scale: real, f: real)
    requires p.Valid() && |q0| == |home| == p.dim && d.joint < p.dim
    requires DetourRoute(p, q0, home, d, r, scale, f)
    ensures ExactRoute(p, q0, home, r.path, scale, f) && Reaches(r.path, home)
  {
    hide BackOut, GroupHome, Groups, p.EdgeOk, Dist;
    EndsContained(p, q0, home);
    BackOutContained(p, q0, home, d);
    var mid := BackOut(p, q0, d);
    if !p.EdgeOk(mid, home, scale, f) {
      var j: nat :| j < 5 && FirstStage(p, mid, home, j, scale, f)
                    && r == Route([mid, GroupHome(mid, home, Groups(p.arm)[j]), home], BackedOut(d.joint, Staged(j)));
      StageFromContained(p, q0, mid, home, Groups(p.arm)[j]);
    }
  }
}
