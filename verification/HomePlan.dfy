// HomePlanner.plan: the floor scales from strict to relaxed, the tiers from cheap to random, the first
// complete route or else the best partial one, and what the returned plan guarantees.
module HomePlan {
  import opened Options
  import opened JointSpace
  import opened EdgeCheck
  import opened Environment
  import opened Paths
  import opened Tiers
  import opened RrtConnect

  datatype Plan = Plan(path: seq<Vec>, scale: real, how: How, complete: bool)

  /** One tier's answer at one scale, and whether the deadline had passed by then. */
  datatype Attempt = Attempt(scale: nat, tier: nat, got: Option<Route>, late: bool)

  /** No pose of a plan may be worse than the start already is. */
  function FloorMin(p: Planner, q0: Vec, scale: real): real {
    Min(0.0, p.margin(q0, scale))
  }

  /** Home itself clears this cushion, so searching at it is not hopeless. */
  predicate Eligible(p: Planner, q0: Vec, home: Vec, s: nat)
    requires s < |p.scales|
  {
    p.margin(home, p.scales[s]) >= FloorMin(p, q0, p.scales[s])
  }

  function AttemptsAt(s: nat): seq<(nat, nat)> {
    [(s, 0), (s, 1), (s, 2), (s, 3), (s, 4)]
  }

  /** Every attempt of a search that nothing cuts short, in order. */
  function Schedule(p: Planner, q0: Vec, home: Vec, from: nat): seq<(nat, nat)>
    decreases |p.scales| - from
  {
    if from >= |p.scales| then []
    else (if Eligible(p, q0, home, from) then AttemptsAt(from) else []) + Schedule(p, q0, home, from + 1)
  }

  function Keys(log: seq<Attempt>): (ks: seq<(nat, nat)>)
    ensures |ks| == |log| && forall i | 0 <= i < |log| :: ks[i] == (log[i].scale, log[i].tier)
  {
    seq(|log|, i requires 0 <= i < |log| => (log[i].scale, log[i].tier))
  }

  /** The route starts at q0, stays in the box, and all its edges are certified but at most one, which is nearly so. */
  ghost predicate Certificate(p: Planner, q0: Vec, home: Vec, path: seq<Vec>, scale: real, f: real)
    requires p.Valid() && |q0| == |home| == p.dim
  {
    && p.Contained([q0] + path, q0, home)
    && (forall k | 0 <= k < |path| :: |path[k]| == p.dim)
    && exists join :: p.CertifiedBut([q0] + path, join, scale, f)
  }

  predicate IsComplete(r: Route, home: Vec)
    requires r.path != [] && |r.path[|r.path| - 1]| == |home|
  {
    Dist(r.path[|r.path| - 1], home) <= 0.000001
  }

  /** How much closer to home the route's end is than the start. */
  function Gain(r: Route, q0: Vec, home: Vec): real
    requires r.path != [] && |r.path[|r.path| - 1]| == |home| == |q0|
  {
    Dist(q0, home) - Dist(r.path[|r.path| - 1], home)
  }

  /** Why a tier that was not cut short finds nothing: there is nothing of its kind to find. */
  ghost predicate TierFails(p: Planner, tier: nat, q0: Vec, home: Vec, scale: real, f: real)
    requires p.Valid() && |q0| == |home| == p.dim
  {
    match tier
    case 0 => !p.EdgeOk(q0, home, scale, f)
    case 1 => !SomeStageWorks(p, q0, home, scale, f)
    case 2 => exists walk: seq<Vec> | GreedyWalk(p, walk, home, scale, f) && walk[0] == q0 :: GreedyStops(p, walk, home, scale, f)
    case 3 => forall i: nat | i < |Detours(p.dim)| :: !DetourWorks(p, q0, home, Detours(p.dim)[i], scale, f)
    case _ => false
  }

  ghost predicate Sound(p: Planner, q0: Vec, home: Vec, a: Attempt)
    requires p.Valid() && |q0| == |home| == p.dim
  {
    && a.scale < |p.scales| && Eligible(p, q0, home, a.scale)
    && (a.got.None? && !a.late ==> TierFails(p, a.tier, q0, home, p.scales[a.scale], FloorMin(p, q0, p.scales[a.scale])))
    && (a.got.Some? ==>
          && a.got.value.path != [] && |a.got.value.path[|a.got.value.path| - 1]| == p.dim
          && Certificate(p, q0, home, a.got.value.path, p.scales[a.scale], FloorMin(p, q0, p.scales[a.scale])))
  }

  ghost predicate Completes(p: Planner, q0: Vec, home: Vec, a: Attempt)
    requires p.Valid() && |q0| == |home| == p.dim && Sound(p, q0, home, a)
  {
    a.got.Some? && IsComplete(a.got.value, home)
  }

  ghost predicate AllSound(p: Planner, q0: Vec, home: Vec, log: seq<Attempt>)
    requires p.Valid() && |q0| == |home| == p.dim
  {
    forall i | 0 <= i < |log| :: Sound(p, q0, home, log[i])
  }

  /** Only the last attempt can have been cut short, and only by the deadline. */
  ghost predicate OnTime(log: seq<Attempt>, passed: bool) {
    forall i | 0 <= i < |log| && log[i].late :: i == |log| - 1 && passed
  }

  ghost predicate NoneComplete(p: Planner, q0: Vec, home: Vec, log: seq<Attempt>)
    requires p.Valid() && |q0| == |home| == p.dim && AllSound(p, q0, home, log)
  {
    forall i | 0 <= i < |log| :: !Completes(p, q0, home, log[i])
  }

  /** Attempt k is the first of largest gain, and that gain is worth executing. */
  ghost predicate BestPartial(p: Planner, q0: Vec, home: Vec, log: seq<Attempt>, k: nat)
    requires p.Valid() && |q0| == |home| == p.dim && AllSound(p, q0, home, log)
  {
    && k < |log| && log[k].got.Some? && Gain(log[k].got.value, q0, home) > 0.1
    && forall i | 0 <= i < |log| && log[i].got.Some? ::
         && Gain(log[i].got.value, q0, home) <= Gain(log[k].got.value, q0, home)
         && (i < k ==> Gain(log[i].got.value, q0, home) < Gain(log[k].got.value, q0, home))
  }

  ghost predicate NoPartial(p: Planner, q0: Vec, home: Vec, log: seq<Attempt>)
    requires p.Valid() && |q0| == |home| == p.dim && AllSound(p, q0, home, log)
  {
    forall i | 0 <= i < |log| && log[i].got.Some? :: Gain(log[i].got.value, q0, home) <= 0.1
  }

  function PlanOf(p: Planner, a: Attempt, complete: bool): Plan
    requires a.scale < |p.scales| && a.got.Some?
  {
    Plan(a.got.value.path, p.scales[a.scale], a.got.value.how, complete)
  }

  /** The first complete route ends the search; otherwise the best partial, if partials are allowed. */
  ghost predicate Chosen(p: Planner, q0: Vec, home: Vec, log: seq<Attempt>, r: Option<Plan>)
    requires p.Valid() && |q0| == |home| == p.dim && AllSound(p, q0, home, log)
  {
    if r.Some? && r.value.complete then
      && log != [] && NoneComplete(p, q0, home, log[..|log| - 1])
      && Completes(p, q0, home, log[|log| - 1]) && r.value == PlanOf(p, log[|log| - 1], true)
    else
      && NoneComplete(p, q0, home, log)
      && if r.Some? then
           p.allowPartial && exists k: nat | k < |log| && BestPartial(p, q0, home, log, k) :: r.value == PlanOf(p, log[k], false)
         else p.allowPartial ==> NoPartial(p, q0, home, log)
  }

  // ------------------------------------------------------------ which scales are searched

  /** Home is at this scale no worse than a plan may be: not below 0, or not below where the arm already is. */
  predicate Hopeful(p: Planner, q0: Vec, home: Vec, s: nat) {
    && s < |p.scales|
    && (p.margin(home, p.scales[s]) >= 0.0 || p.margin(home, p.scales[s]) >= p.margin(q0, p.scales[s]))
  }

  /** Scale before scale, and tier before tier. */
  predicate Sooner(a: (nat, nat), b: (nat, nat)) {
    a.0 < b.0 || (a.0 == b.0 && a.1 < b.1)
  }

  /** A tier, by number, at a scale from `from` on that is not hopeless. */
  predicate Due(p: Planner, q0: Vec, home: Vec, from: nat, a: (nat, nat)) {
    from <= a.0 && a.1 < 5 && Hopeful(p, q0, home, a.0)
  }

  /** Only due attempts, in order, none twice, and none left out before one that was made. */
  ghost predicate InTurn(p: Planner, q0: Vec, home: Vec, from: nat, keys: seq<(nat, nat)>) {
    && (forall i | 0 <= i < |keys| :: Due(p, q0, home, from, keys[i]))
    && (forall i, j | 0 <= i < j < |keys| :: Sooner(keys[i], keys[j]))
    && forall i, a: (nat, nat) | 0 <= i < |keys| && Due(p, q0, home, from, a) && Sooner(a, keys[i]) :: a in keys
  }

  lemma DueHereOrLater(p: Planner, q0: Vec, home: Vec, from: nat, a: (nat, nat))
    ensures Due(p, q0, home, from, a) <==>
            Due(p, q0, home, from + 1, a) || (a.0 == from && a.1 < 5 && Hopeful(p, q0, home, from))
  {
  }

  /** all lists exactly what is due, in order. */
  ghost predicate AllDue(p: Planner, q0: Vec, home: Vec, from: nat, all: seq<(nat, nat)>) {
    && (forall i | 0 <= i < |all| :: Due(p, q0, home, from, all[i]))
    && (forall i, j | 0 <= i < j < |all| :: Sooner(all[i], all[j]))
    && forall a: (nat, nat) | Due(p, q0, home, from, a) :: a in all
  }

  lemma ScaleSkipped(p: Planner, q0: Vec, home: Vec, from: nat, rest: seq<(nat, nat)>)
    requires AllDue(p, q0, home, from + 1, rest) && !Hopeful(p, q0, home, from)
    ensures AllDue(p, q0, home, from, rest)
  {
    hide Due, Hopeful, Sooner;
    forall i | 0 <= i < |rest| ensures Due(p, q0, home, from, rest[i]) {
      DueHereOrLater(p, q0, home, from, rest[i]);
    }
    forall a: (nat, nat) | Due(p, q0, home, from, a) ensures a in rest {
      DueHereOrLater(p, q0, home, from, a);
    }
  }

  lemma ScaleTried(p: Planner, q0: Vec, home: Vec, from: nat, rest: seq<(nat, nat)>)
    requires AllDue(p, q0, home, from + 1, rest) && Hopeful(p, q0, home, from)
    ensures AllDue(p, q0, home, from, AttemptsAt(from) + rest)
  {
    hide Hopeful;
    var here := AttemptsAt(from);
    var all := here + rest;
    assert forall i | 0 <= i < 5 :: all[i] == (from, i);
    assert forall i | 0 <= i < |rest| :: all[i + 5] == rest[i];
    hide AttemptsAt;
    forall i | 0 <= i < |all| ensures Due(p, q0, home, from, all[i]) {
      if i >= 5 {
        assert all[i] == rest[i - 5];
        DueHereOrLater(p, q0, home, from, rest[i - 5]);
      }
    }
    forall i, j | 0 <= i < j < |all| ensures Sooner(all[i], all[j]) {
      if i >= 5 {
        assert all[i] == rest[i - 5] && all[j] == rest[j - 5];
      } else if j >= 5 {
        assert all[j] == rest[j - 5] && Due(p, q0, home, from + 1, rest[j - 5]);
      }
    }
    forall a: (nat, nat) | Due(p, q0, home, from, a) ensures a in all {
      DueHereOrLater(p, q0, home, from, a);
      if a.0 == from && a.1 < 5 {
        assert all[a.1] == a;
      } else {
        assert a in rest;
      }
    }
  }

  lemma {:induction false} ScheduleIsAllDue(p: Planner, q0: Vec, home: Vec, from: nat)
    ensures AllDue(p, q0, home, from, Schedule(p, q0, home, from))
    decreases |p.scales| - from
  {
    hide AllDue;
    if from < |p.scales| {
      ScheduleIsAllDue(p, q0, home, from + 1);
      if Hopeful(p, q0, home, from) {
        ScaleTried(p, q0, home, from, Schedule(p, q0, home, from + 1));
      } else {
        ScaleSkipped(p, q0, home, from, Schedule(p, q0, home, from + 1));
        assert Schedule(p, q0, home, from) == [] + Schedule(p, q0, home, from + 1) == Schedule(p, q0, home, from + 1);
      }
    } else {
      NoScalesLeft(p, q0, home, from);
    }
  }

  lemma NoScalesLeft(p: Planner, q0: Vec, home: Vec, from: nat)
    requires from >= |p.scales|
    ensures AllDue(p, q0, home, from, [])
  {
  }

  /** A prefix of the schedule leaves out nothing that was due before its end. */
  lemma PrefixInTurn(p: Planner, q0: Vec, home: Vec, from: nat, keys: seq<(nat, nat)>)
    requires keys <= Schedule(p, q0, home, from)
    ensures InTurn(p, q0, home, from, keys)
  {
    var all := Schedule(p, q0, home, from);
    ScheduleIsAllDue(p, q0, home, from);
    hide Due;
    forall i, a: (nat, nat) | 0 <= i < |keys| && Due(p, q0, home, from, a) && Sooner(a, keys[i]) ensures a in keys {
      var j :| 0 <= j < |all| && all[j] == a;
      assert keys[i] == all[i];
      assert j < |keys|;
      assert keys[j] == a;
    }
    forall i | 0 <= i < |keys| ensures Due(p, q0, home, from, keys[i]) {
      assert keys[i] == all[i];
    }
    forall i, j | 0 <= i < j < |keys| ensures Sooner(keys[i], keys[j]) {
      assert keys[i] == all[i] && keys[j] == all[j];
    }
  }

  lemma NothingDue(p: Planner, q0: Vec, home: Vec, from: nat)
    requires Schedule(p, q0, home, from) == []
    ensures forall s: nat | from <= s < |p.scales| :: p.margin(home, p.scales[s]) < Min(0.0, p.margin(q0, p.scales[s]))
  {
    ScheduleIsAllDue(p, q0, home, from);
    forall s: nat | from <= s < |p.scales| ensures p.margin(home, p.scales[s]) < Min(0.0, p.margin(q0, p.scales[s])) {
      assert !Due(p, q0, home, from, (s, 0));
    }
  }

  /** Skipping a scale loses nothing: no path that ends at home is certified there down to the start's own margin. */
  lemma SkippedIsHopeless(p: Planner, q0: Vec, home: Vec, from: nat, s: nat, path: seq<Vec>)
    requires p.Valid() && |q0| == |home| == p.dim && from <= s < |p.scales| && path != [] && path[|path| - 1] == home
    requires forall t: nat | t < 5 :: (s, t) !in Schedule(p, q0, home, from)
    ensures !p.CertifiedPath([q0] + path, p.scales[s], Min(0.0, p.margin(q0, p.scales[s])))
  {
    var f, scale := Min(0.0, p.margin(q0, p.scales[s])), p.scales[s];
    ScheduleIsAllDue(p, q0, home, from);
    assert !Due(p, q0, home, from, (s, 0));
    assert p.margin(home, scale) < f;
    var pts, i := [q0] + path, |path| - 1;
    if p.CertifiedPath(pts, scale, f) {
      assert p.EdgeOk(pts[i], pts[i + 1], scale, f);
      EndSamples(p.margin, pts[i], pts[i + 1], scale, p.step, f);
      assert false;
    }
  }

  // ------------------------------------------------------------------------- the search

  lemma PathSizes(p: Planner, q0: Vec, path: seq<Vec>, join: int, scale: real, f: real)
    requires p.Valid() && p.CertifiedBut([q0] + path, join, scale, f)
    ensures forall k | 0 <= k < |path| :: |path[k]| == p.dim
  {
    assert forall k | 0 <= k < |path| :: path[k] == ([q0] + path)[k + 1];
  }

  lemma ExactCertificate(p: Planner, q0: Vec, home: Vec, path: seq<Vec>, scale: real, f: real)
    requires p.Valid() && |q0| == |home| == p.dim && ExactRoute(p, q0, home, path, scale, f)
    ensures path != [] && |path[|path| - 1]| == p.dim
    ensures Certificate(p, q0, home, path, scale, f)
  {
    assert ([q0] + path)[|path|] == path[|path| - 1];
    PathSizes(p, q0, path, -1, scale, f);
  }

  lemma RrtCertificate(p: Planner, q0: Vec, home: Vec, r: Route, join: int, scale: real, f: real)
    requires p.Valid() && |q0| == |home| == p.dim && RrtGood(p, q0, home, r, join, scale, f)
    ensures r.path != [] && |r.path[|r.path| - 1]| == p.dim
    ensures Certificate(p, q0, home, r.path, scale, f)
  {
    PathSizes(p, q0, r.path, join, scale, f);
  }

  method RunTier(p: Planner, w: World, tier: nat, q0: Vec, home: Vec, scale: real, f: real, deadline: real)
    returns (r: Option<Route>)
    requires p.Valid() && |q0| == |home| == p.dim && w.Ticking() && tier < 5
    modifies w`readings, w`draws
    ensures w.readings >= old(w.readings)
    ensures r.Some? ==> r.value.path != [] && |r.value.path[|r.value.path| - 1]| == p.dim
    ensures r.Some? ==> Certificate(p, q0, home, r.value.path, scale, f)
    ensures tier == 0 ==> (r.Some? <==> p.EdgeOk(q0, home, scale, f))
    ensures r.None? ==> w.Expired(deadline, old(w.readings), w.readings) || TierFails(p, tier, q0, home, scale, f)
    ensures tier == 4 ==> w.Expired(deadline, old(w.readings), w.readings) || (r.Some? && IsComplete(r.value, home))
    ensures r.Some? ==> match r.value.how
                        case Direct => tier == 0
                        case Staged(_) => tier == 1
                        case OneJointAtATime => tier == 2
                        case BackedOut(_, _) => tier == 3
                        case Rrt => tier == 4
                        case RrtPartial => tier == 4
  {
    hide p.EdgeOk, InBox, Dist, GreedyWalk, GreedyStops, SomeStageWorks, StageWorks, DetourWorks, Groups, Detours, ExactRoute, Certificate, AllHome, NoMove;
    match tier {
      case 0 =>
        r := DirectTier(p, q0, home, scale, f);
        if r.Some? {
          ExactCertificate(p, q0, home, r.value.path, scale, f);
        }
      case 1 =>
        r := StagedTier(p, w, q0, home, scale, f, deadline);
        if r.Some? {
          ghost var j: nat :| j < 5 && FirstStage(p, q0, home, j, scale, f)
                        && r.value == Route([GroupHome(q0, home, Groups(p.arm)[j]), home], Staged(j));
          StagedExact(p, q0, home, Groups(p.arm)[j], scale, f);
          ExactCertificate(p, q0, home, r.value.path, scale, f);
        }
      case 2 =>
        ghost var walk;
        r, walk := GreedyTier(p, w, q0, home, scale, f, deadline);
        if r.Some? {
          GreedyExact(p, walk, home, scale, f);
          ExactCertificate(p, q0, home, r.value.path, scale, f);
        }
      case 3 =>
        r := DetourTier(p, w, q0, home, scale, f, deadline);
        if r.Some? {
          ghost var k: nat :| k < |Detours(p.dim)| && DetourRoute(p, q0, home, Detours(p.dim)[k], r.value, scale, f);
          DetourExact(p, q0, home, Detours(p.dim)[k], r.value, scale, f);
          ExactCertificate(p, q0, home, r.value.path, scale, f);
        }
      case _ =>
        ghost var join, gap, trace, end;
        r, join, gap, trace, end := RrtTier(p, w, q0, home, scale, f, deadline);
        if r.Some? {
          RrtCertificate(p, q0, home, r.value, join, scale, f);
          DistZero(home, home);
        }
    }
  }

  /** The best partial so far: the tuple the search carries, tied to the attempt it came from. */
  ghost predicate BestSoFar(p: Planner, q0: Vec, home: Vec, log: seq<Attempt>, best: Option<(real, Plan)>)
    requires p.Valid() && |q0| == |home| == p.dim && AllSound(p, q0, home, log)
  {
    match best
    case None => NoPartial(p, q0, home, log)
    case Some((gain, plan)) =>
      exists k: nat | k < |log| && BestPartial(p, q0, home, log, k) ::
        gain == Gain(log[k].got.value, q0, home) && plan == PlanOf(p, log[k], false)
  }

  function Better(p: Planner, q0: Vec, home: Vec, best: Option<(real, Plan)>, a: Attempt): Option<(real, Plan)>
    requires a.scale < |p.scales| && |q0| == |home|
    requires a.got.Some? ==> a.got.value.path != [] && |a.got.value.path[|a.got.value.path| - 1]| == |home|
  {
    if a.got.None? then best
    else
      var gain := Gain(a.got.value, q0, home);
      if gain > 0.1 && (best.None? || gain > best.value.0) then Some((gain, PlanOf(p, a, false))) else best
  }

  lemma BetterIsBest(p: Planner, q0: Vec, home: Vec, log: seq<Attempt>, best: Option<(real, Plan)>, a: Attempt)
    requires p.Valid() && |q0| == |home| == p.dim && AllSound(p, q0, home, log) && Sound(p, q0, home, a)
    requires BestSoFar(p, q0, home, log, best)
    ensures AllSound(p, q0, home, log + [a])
    ensures BestSoFar(p, q0, home, log + [a], Better(p, q0, home, best, a))
  {
    hide Certificate, Gain, Eligible, Dist;
    var log' := log + [a];
    assert forall i | 0 <= i < |log| :: log'[i] == log[i];
    if best.Some? {
      var k: nat :| k < |log| && BestPartial(p, q0, home, log, k)
                    && best.value.0 == Gain(log[k].got.value, q0, home) && best.value.1 == PlanOf(p, log[k], false);
      if Better(p, q0, home, best, a) == best {
        assert log'[k] == log[k];
        assert BestPartial(p, q0, home, log', k);
      } else {
        assert BestPartial(p, q0, home, log', |log|);
      }
    } else if Better(p, q0, home, best, a).Some? {
      assert BestPartial(p, q0, home, log', |log|);
    }
  }

  lemma NoneYet(p: Planner, q0: Vec, home: Vec)
    requires p.Valid() && |q0| == |home| == p.dim
    ensures AllSound(p, q0, home, []) && NoneComplete(p, q0, home, []) && BestSoFar(p, q0, home, [], None)
  {
  }

  lemma AnswerFromBest(p: Planner, q0: Vec, home: Vec, log: seq<Attempt>, best: Option<(real, Plan)>)
    requires p.Valid() && |q0| == |home| == p.dim && AllSound(p, q0, home, log)
    requires NoneComplete(p, q0, home, log) && BestSoFar(p, q0, home, log, best)
    ensures Chosen(p, q0, home, log, if best.Some? && p.allowPartial then Some(best.value.1) else None)
  {
  }

  lemma ScheduleStep(p: Planner, q0: Vec, home: Vec)
    ensures forall s: nat :: s >= |p.scales| ==> Schedule(p, q0, home, s) == []
    ensures forall s: nat | s < |p.scales| && !Eligible(p, q0, home, s) ::
              Schedule(p, q0, home, s) == Schedule(p, q0, home, s + 1)
  {
  }

  /** The attempts at one scale continue a prefix of the schedule that had reached that scale. */
  lemma AttemptsPrefix(
    p: Planner, q0: Vec, home: Vec, s: nat, done: seq<(nat, nat)>, n: nat, all: seq<(nat, nat)>)
    requires s < |p.scales| && Eligible(p, q0, home, s) && n <= 5
    ensures done + Schedule(p, q0, home, s) == all ==> done + AttemptsAt(s)[..n] <= all
  {
  }

  lemma FirstAttempts(s: nat, ks: seq<(nat, nat)>)
    ensures ks == ks + AttemptsAt(s)[..0] && |AttemptsAt(s)| == 5
  {
  }

  lemma NextKey(s: nat, t: nat, ks: seq<(nat, nat)>)
    requires t < 5
    ensures ks + AttemptsAt(s)[..t] + [(s, t)] == ks + AttemptsAt(s)[..t + 1]
  {
  }

  lemma AttemptSound(p: Planner, q0: Vec, home: Vec, a: Attempt)
    requires p.Valid() && |q0| == |home| == p.dim && a.scale < |p.scales| && Eligible(p, q0, home, a.scale)
    requires a.got.None? ==> a.late || TierFails(p, a.tier, q0, home, p.scales[a.scale], FloorMin(p, q0, p.scales[a.scale]))
    requires a.got.Some? ==> a.got.value.path != [] && |a.got.value.path[|a.got.value.path| - 1]| == p.dim
    requires a.got.Some? ==> Certificate(p, q0, home, a.got.value.path, p.scales[a.scale], FloorMin(p, q0, p.scales[a.scale]))
    ensures Sound(p, q0, home, a)
  {
  }

  /** One more attempt: it completes the search, or the search goes on. */
  lemma LogGrows(p: Planner, q0: Vec, home: Vec, log: seq<Attempt>, a: Attempt)
    requires p.Valid() && |q0| == |home| == p.dim && AllSound(p, q0, home, log) && Sound(p, q0, home, a)
    requires NoneComplete(p, q0, home, log) && AllSound(p, q0, home, log + [a])
    ensures Keys(log + [a]) == Keys(log) + [(a.scale, a.tier)]
    ensures a.got.None? ==> NoneComplete(p, q0, home, log + [a])
    ensures a.got.Some? ==> |a.got.value.path| > 0 && |a.got.value.path[|a.got.value.path| - 1]| == |home|
    ensures a.got.Some? && !IsComplete(a.got.value, home) ==> NoneComplete(p, q0, home, log + [a])
    ensures a.got.Some? && IsComplete(a.got.value, home) ==> Chosen(p, q0, home, log + [a], Some(PlanOf(p, a, true)))
  {
    hide Certificate, Eligible, TierFails, IsComplete;
    var log' := log + [a];
    assert log'[..|log|] == log && log'[|log|] == a;
    assert forall i | 0 <= i < |log| :: log'[i] == log[i];
  }

  /** The tier loop at one scale. */
  method SearchScale(
    p: Planner, w: World, s: nat, q0: Vec, home: Vec, deadline: real, best: Option<(real, Plan)>, ghost log: seq<Attempt>)
    returns (done: Option<Plan>, best': Option<(real, Plan)>, ghost log': seq<Attempt>)
    requires p.Valid() && |q0| == |home| == p.dim && w.Ticking()
    requires s < |p.scales| && Eligible(p, q0, home, s)
    requires AllSound(p, q0, home, log) && NoneComplete(p, q0, home, log) && BestSoFar(p, q0, home, log, best)
    requires OnTime(log, w.PassedBy(deadline, w.readings))
    modifies w`readings, w`draws
    ensures w.readings >= old(w.readings)
    ensures AllSound(p, q0, home, log') && OnTime(log', w.PassedBy(deadline, w.readings))
    ensures |log| <= |log'| <= |log| + 5 && Keys(log') == Keys(log) + AttemptsAt(s)[..|log'| - |log|]
    ensures done.Some? ==> done.value.complete && Chosen(p, q0, home, log', done)
    ensures done.None? ==> && NoneComplete(p, q0, home, log') && BestSoFar(p, q0, home, log', best')
                           && w.Expired(deadline, old(w.readings), w.readings)
    ensures w.PassedBy(deadline, old(w.readings)) ==> |log'| == |log| && done.None?
  {
    hide p.Valid, Certificate, Eligible, Gain, BestSoFar, p.EdgeOk, IsComplete, Sound, AllSound, NoneComplete, Chosen, TierFails;
    hide Keys, AttemptsAt;
    assert Keys(log) == Keys(log) + AttemptsAt(s)[..0] && |AttemptsAt(s)| == 5 by { FirstAttempts(s, Keys(log)); }
    var scale := p.scales[s];
    var f := FloorMin(p, q0, scale);
    best', log', done := best, log, None;
    var t := 0;
    while t < 5
      invariant 0 <= t <= 5 && w.readings >= old(w.readings) && (t > 0 ==> w.readings > old(w.readings))
      invariant |log'| == |log| + t && Keys(log') == Keys(log) + AttemptsAt(s)[..t]
      invariant AllSound(p, q0, home, log') && NoneComplete(p, q0, home, log') && BestSoFar(p, q0, home, log', best')
      invariant t > 0 ==> !w.PassedBy(deadline, old(w.readings))
      invariant OnTime(log', w.PassedBy(deadline, w.readings))
      invariant t == 5 ==> w.Expired(deadline, old(w.readings), w.readings)
    {
      w.PassedLater(deadline, w.readings, w.readings + 1);
      ghost var from := w.readings;
      var late := w.Late(deadline);
      if late {
        return;
      }
      var got := RunTier(p, w, t, q0, home, scale, f, deadline);
      ghost var a := Attempt(s, t, got, w.PassedBy(deadline, w.readings));
      if w.Expired(deadline, from + 1, w.readings) {
        w.StaysPassed(deadline, from + 1, w.readings, w.readings);
      }
      AttemptSound(p, q0, home, a);
      BetterIsBest(p, q0, home, log', best', a);
      LogGrows(p, q0, home, log', a);
      NextKey(s, t, Keys(log));
      log' := log' + [a];
      if got.Some? {
        if IsComplete(got.value, home) {
          done := Some(Plan(got.value.path, scale, got.value.how, true));
          return;
        }
        best' := Better(p, q0, home, best', Attempt(s, t, got, false));
      }
      t := t + 1;
    }
  }

  /**
   plan(): every scale from min_scale on, skipping those home itself does not clear. Whatever the
   clock and the draws, the attempts made are those due, in turn, none left out before the last; an attempt that
   finds nothing had nothing to find, or was the last, cut short by the deadline; the answer is the one those
   attempts call for; and it falls short of a complete route only when the deadline passed or home is worse at
   every scale than a plan may be.
   */
  method FindPlan(p: Planner, w: World, q0: Vec, home: Vec, deadline: real, minScale: nat)
    returns (r: Option<Plan>, ghost log: seq<Attempt>)
    requires p.Valid() && |q0| == |home| == p.dim && w.Ticking()
    modifies w`readings, w`draws
    ensures AllSound(p, q0, home, log) && Chosen(p, q0, home, log, r) && OnTime(log, w.PassedBy(deadline, w.readings))
    ensures Keys(log) <= Schedule(p, q0, home, minScale) && InTurn(p, q0, home, minScale, Keys(log))
    ensures (r.Some? && r.value.complete) || w.Expired(deadline, old(w.readings), w.readings) ||
            forall s: nat | minScale <= s < |p.scales| :: p.margin(home, p.scales[s]) < Min(0.0, p.margin(q0, p.scales[s]))
  {
    hide p.Valid, Certificate, Eligible, Gain, AllSound, NoneComplete, Chosen, BestSoFar, Schedule, AttemptsAt, w.Expired, InTurn;
    ScheduleStep(p, q0, home);
    NoneYet(p, q0, home);
    var best: Option<(real, Plan)> := None;
    log := [];
    var s := minScale;
    while s < |p.scales|
      invariant s >= minScale && w.readings >= old(w.readings)
      invariant AllSound(p, q0, home, log) && NoneComplete(p, q0, home, log) && BestSoFar(p, q0, home, log, best)
      invariant Keys(log) <= Schedule(p, q0, home, minScale) && OnTime(log, w.PassedBy(deadline, w.readings))
      invariant w.Expired(deadline, old(w.readings), w.readings) ||
                (log == [] && Schedule(p, q0, home, s) == Schedule(p, q0, home, minScale))
      decreases |p.scales| - s
    {
      if Eligible(p, q0, home, s) {
        ghost var before, at := log, w.readings;
        var done;
        done, best, log := SearchScale(p, w, s, q0, home, deadline, best, log);
        if w.Expired(deadline, old(w.readings), at) {
          w.StaysPassed(deadline, old(w.readings), at, at);
        }
        w.ExpiredWider(deadline, old(w.readings), at, w.readings);
        AttemptsPrefix(p, q0, home, s, Keys(before), |log| - |before|, Schedule(p, q0, home, minScale));
        if done.Some? {
          PrefixInTurn(p, q0, home, minScale, Keys(log));
          return done, log;
        }
      }
      s := s + 1;
    }
    AnswerFromBest(p, q0, home, log, best);
    PrefixInTurn(p, q0, home, minScale, Keys(log));
    if Schedule(p, q0, home, minScale) == [] {
      NothingDue(p, q0, home, minScale);
    }
    r := if best.Some? && p.allowPartial then Some(best.value.1) else None;
  }

  // ----------------------------------------------------------- what the answer comes down to

  /**
   The plan returned, in plain terms: certified at its scale down to the start's own margin there or 0, the lower;
   complete exactly when it ends within 1e-6 of home, and else only if partials are allowed, more than 0.1 closer to
   home than the start, and no further from home than any route found.
   */
  lemma PlanSays(p: Planner, q0: Vec, home: Vec, minScale: nat, log: seq<Attempt>, plan: Plan)
    requires p.Valid() && |q0| == |home| == p.dim && AllSound(p, q0, home, log) && Chosen(p, q0, home, log, Some(plan))
    requires InTurn(p, q0, home, minScale, Keys(log))
    ensures plan.path != [] && |plan.path[|plan.path| - 1]| == p.dim
    ensures Certificate(p, q0, home, plan.path, plan.scale, Min(0.0, p.margin(q0, plan.scale)))
    ensures exists s: nat :: minScale <= s < |p.scales| && plan.scale == p.scales[s]
    ensures var end := plan.path[|plan.path| - 1];
            if plan.complete then Dist(end, home) <= 0.000001
            else
              && p.allowPartial && Dist(end, home) > 0.000001 && Dist(q0, home) - Dist(end, home) > 0.1
              && forall i | 0 <= i < |log| && log[i].got.Some? ::
                   var other := log[i].got.value.path;
                   other != [] && |other[|other| - 1]| == p.dim && Dist(end, home) <= Dist(other[|other| - 1], home)
  {
    hide AllSound, Sound, Chosen, Completes, BestPartial, Certificate, Dist, Hopeful, InTurn, Gain, IsComplete;
    var k := ChosenAttempt(p, q0, home, log, plan);
    SoundSays(p, q0, home, log, k);
    KeySays(p, q0, home, minScale, log, k);
    CompleteSays(p, q0, home, log, k);
    if !plan.complete {
      forall i | 0 <= i < |log| && log[i].got.Some?
        ensures var other := log[i].got.value.path;
                && other != [] && |other[|other| - 1]| == p.dim
                && Dist(plan.path[|plan.path| - 1], home) <= Dist(other[|other| - 1], home)
      {
        SoundSays(p, q0, home, log, i);
        BestSays(p, q0, home, log, k, i);
      }
      BestSays(p, q0, home, log, k, k);
    }
  }

  /** The attempt the plan was taken from. */
  lemma ChosenAttempt(p: Planner, q0: Vec, home: Vec, log: seq<Attempt>, plan: Plan) returns (k: nat)
    requires p.Valid() && |q0| == |home| == p.dim && AllSound(p, q0, home, log) && Chosen(p, q0, home, log, Some(plan))
    ensures k < |log| && log[k].got.Some? && log[k].scale < |p.scales| && plan == PlanOf(p, log[k], plan.complete)
    ensures Sound(p, q0, home, log[k]) && (plan.complete <==> Completes(p, q0, home, log[k]))
    ensures !plan.complete ==> p.allowPartial && BestPartial(p, q0, home, log, k)
  {
    hide Certificate, Dist, TierFails, Eligible, IsComplete, Gain;
    if plan.complete {
      k := |log| - 1;
    } else {
      k :| k < |log| && BestPartial(p, q0, home, log, k) && plan == PlanOf(p, log[k], false);
      assert !Completes(p, q0, home, log[k]);
    }
  }

  lemma SoundSays(p: Planner, q0: Vec, home: Vec, log: seq<Attempt>, k: nat)
    requires p.Valid() && |q0| == |home| == p.dim && AllSound(p, q0, home, log) && k < |log| && log[k].got.Some?
    ensures log[k].scale < |p.scales| && log[k].got.value.path != []
    ensures |log[k].got.value.path[|log[k].got.value.path| - 1]| == p.dim && Sound(p, q0, home, log[k])
    ensures var scale := p.scales[log[k].scale];
            Certificate(p, q0, home, log[k].got.value.path, scale, Min(0.0, p.margin(q0, scale)))
  {
    hide Certificate, TierFails, Eligible;
    assert Sound(p, q0, home, log[k]);
  }

  lemma KeySays(p: Planner, q0: Vec, home: Vec, minScale: nat, log: seq<Attempt>, k: nat)
    requires InTurn(p, q0, home, minScale, Keys(log)) && k < |log|
    ensures minScale <= log[k].scale < |p.scales|
  {
    assert Due(p, q0, home, minScale, Keys(log)[k]);
  }

  lemma CompleteSays(p: Planner, q0: Vec, home: Vec, log: seq<Attempt>, k: nat)
    requires p.Valid() && |q0| == |home| == p.dim && AllSound(p, q0, home, log) && k < |log| && log[k].got.Some?
    ensures Sound(p, q0, home, log[k]) && log[k].got.value.path != []
    ensures var end := log[k].got.value.path[|log[k].got.value.path| - 1];
            |end| == p.dim && (Completes(p, q0, home, log[k]) <==> Dist(end, home) <= 0.000001)
  {
    hide Certificate, TierFails, Eligible, Dist;
    assert Sound(p, q0, home, log[k]);
  }

  lemma BestSays(p: Planner, q0: Vec, home: Vec, log: seq<Attempt>, k: nat, i: nat)
    requires p.Valid() && |q0| == |home| == p.dim && AllSound(p, q0, home, log) && BestPartial(p, q0, home, log, k)
    requires i < |log| && log[i].got.Some?
    ensures var end, other := log[k].got.value.path, log[i].got.value.path;
            && end != [] && |end[|end| - 1]| == p.dim && other != [] && |other[|other| - 1]| == p.dim
            && Dist(q0, home) - Dist(end[|end| - 1], home) > 0.1
            && Dist(end[|end| - 1], home) <= Dist(other[|other| - 1], home)
  {
    hide Certificate, TierFails, Eligible, Dist;
    assert Sound(p, q0, home, log[k]) && Sound(p, q0, home, log[i]);
  }
}
