// The bridge over whole runs: what every reachable mode satisfies, which events can end an episode, and
// how clear of collision every homing command is.
module BridgeRuns {
  import opened Options
  import opened JointSpace
  import opened EdgeCheck
  import opened HomePlan
  import opened PlanClearance
  import opened HomeRamp
  import opened BridgeModes

  // ------------------------------------------------------------------------ what is kept

  /** Homing excludes the clutch, a lock needs it, and a ramp that may stop an episode knows which. */
  ghost predicate ModeInv(c: Config, m: Mode) {
    && (m.home.active ==> !m.arm.engaged && m.arm.ready)
    && (m.home.active <==> m.home.ramp.Some?)
    && (m.home.stopRec ==> m.home.active)
    && (m.axlock ==> m.arm.engaged && m.lock.Some? && m.lock.value.p0.Some?)
    && (!m.axlock ==> m.lock.None?)
    && (m.arm.engaged ==> m.arm.ready && m.arm.anchor.Some?)
    && (m.arm.ready ==> m.arm.target.Some?)
    && (m.home.active && m.rec.on ==> m.home.stopRec)
    && (m.home.stopRec && m.rec.on ==> m.rec.episode == m.home.origin.episode)
    && (m.rec.on ==> c.hasRecorder)
  }

  /** A route that the planner, or the straight-path check, certified from the given pose. */
  ghost predicate RouteOk(c: Config, measured: Vec, route: HomeRoute)
    requires c.Valid()
  {
    && |measured| == c.p.dim && route.wps != []
    && route.floor == FloorMin(c.p, measured, route.scale)
    && Certificate(c.p, measured, c.homeQ, route.wps, route.scale, route.floor)
  }

  /** The ramp walks a certified route, from a command within the lead of the pose it was certified from. */
  ghost predicate RampInv(c: Config, h: Homing)
    requires c.Valid()
  {
    h.ramp.Some? ==>
      && RouteOk(c, h.origin.measured, HomeRoute(h.ramp.value.wps, h.scale, h.floor))
      && |h.origin.start| == c.p.dim && Dist(h.origin.start, h.origin.measured) <= c.lead
      && RampOk(h.ramp.value, c.p.dim) && OnLeg(h.origin.start, h.ramp.value)
  }

  ghost predicate Inv(c: Config, m: Mode)
    requires c.Valid()
  {
    ModeInv(c, m) && RampInv(c, m.home)
  }

  // ------------------------------------------------------------------------------ events

  datatype Event = Joints(fk: Vec) | Vr(vr: VrInput) | Control(tick: TickInput)

  ghost predicate SenseOk(c: Config, s: Sense)
    requires c.Valid()
  {
    s.route.Some? ==> RouteOk(c, s.measured, s.route.value)
  }

  ghost predicate EventOk(c: Config, e: Event)
    requires c.Valid()
  {
    match e
    case Joints(_) => true
    case Vr(i) => SenseOk(c, i.menuSense) && SenseOk(c, i.homeSense)
    case Control(t) => |t.measured| == c.p.dim && t.dt >= 0.0
  }

  lemma StartInLead(c: Config, lastCmd: Option<Vec>, measured: Vec)
    requires c.lead >= 0.0
    ensures |RampStart(c, lastCmd, measured)| == |measured|
    ensures Dist(RampStart(c, lastCmd, measured), measured) <= c.lead
  {
    DistZero(measured, measured);
  }

  /** A new ramp is at the start of its first leg. */
  lemma RampBegins(c: Config, m: Mode, stopRec: bool, route: HomeRoute, measured: Vec)
    requires c.Valid() && RouteOk(c, measured, route)
    ensures RampInv(c, BeginRamp(c, m, stopRec, route, measured).home)
  {
    hide Dist, InBox, Lerp, RampStart, c.p.CertifiedBut;
    StartInLead(c, m.arm.lastCmd, measured);
    SegmentEnds(RampStart(c, m.arm.lastCmd, measured), route.wps[0]);
  }

  // ------------------------------------------------------- every stage keeps the invariant

  lemma PosePadKeep(c: Config, m: Mode, i: VrInput)
    requires c.Valid() && Inv(c, m)
    ensures Inv(c, PoseStage(m, i)) && Inv(c, PadStage(c, m, i))
  {
    hide RouteOk, RampOk, OnLeg, Dist;
  }

  lemma StartHomeKeeps(c: Config, m: Mode, stopRec: bool, s: Sense)
    requires c.Valid() && Inv(c, m) && SenseOk(c, s) && (stopRec ==> m.rec.on)
    ensures Inv(c, StartHome(c, m, stopRec, s).0)
    ensures StartHome(c, m, stopRec, s).1 ==>
              StartHome(c, m, stopRec, s).0.home.origin.episode == m.rec.episode
  {
    hide RouteOk, RampInv, RampStart;
    if StartHome(c, m, stopRec, s).1 {
      RampBegins(c, Freeze(c, m, s), stopRec, s.route.value, s.measured);
    }
  }

  lemma MenuKeeps(c: Config, m: Mode, i: VrInput)
    requires c.Valid() && Inv(c, m) && SenseOk(c, i.menuSense)
    ensures Inv(c, MenuStage(c, m, i))
  {
    hide RampInv, SenseOk, StartHome;
    var m1 := m.(keys := m.keys.(menuT := i.now));
    if m.rec.on {
      StartHomeKeeps(c, m1, true, i.menuSense);
    }
  }

  lemma HomeButtonKeeps(c: Config, m: Mode, i: VrInput)
    requires c.Valid() && Inv(c, m) && SenseOk(c, i.homeSense)
    ensures Inv(c, HomeStage(c, m, i))
  {
    hide RouteOk, RampOk, OnLeg, Dist, SenseOk, StartHome;
    StartHomeKeeps(c, m.(keys := m.keys.(homeT := i.now)), false, i.homeSense);
  }

  lemma LockKeeps(c: Config, m: Mode, i: VrInput)
    requires c.Valid() && Inv(c, m)
    ensures Inv(c, LockStage(c, m, i))
  {
  }

  lemma VrKeeps(c: Config, m: Mode, i: VrInput)
    requires c.Valid() && Inv(c, m) && SenseOk(c, i.menuSense) && SenseOk(c, i.homeSense)
    ensures Inv(c, VrTick(c, m, i))
  {
    hide Inv, SenseOk, PoseStage, PadStage, MenuStage, HomeStage, LockStage;
    PosePadKeep(c, m, i);
    var m1 := PoseStage(m, i);
    PosePadKeep(c, m1, i);
    MenuKeeps(c, PadStage(c, m1, i), i);
    HomeButtonKeeps(c, MenuStage(c, PadStage(c, m1, i), i), i);
    LockKeeps(c, HomeStage(c, MenuStage(c, PadStage(c, m1, i), i), i), i);
  }

  lemma HomeTickKeeps(c: Config, m: Mode, t: TickInput)
    requires c.Valid() && Inv(c, m) && m.home.active && |t.measured| == c.p.dim && TickStep(c, t) >= 0.0
    ensures Inv(c, HomeTick(c, m, t))
  {
    hide RouteOk, RampOk, OnLeg, Dist, Walk, RampOver, HomeGate;
    WalkTick(m.home.origin.start, m.home.ramp.value, TickStep(c, t), t.now, c.dwell);
    var h := m.home.(ramp := Some(HomeWalk(c, m.home.ramp.value, t)));
    assert RampInv(c, h);
    if !HomeGate(c, m.home, t) && !RampOver(c, m.home.ramp.value, h.ramp.value, t) {
      assert HomeTick(c, m, t).home == h;
    } else {
      assert HomeTick(c, m, t).home.ramp == None;
    }
  }

  lemma ControlKeeps(c: Config, m: Mode, t: TickInput)
    requires c.Valid() && Inv(c, m) && |t.measured| == c.p.dim && t.dt >= 0.0
    ensures CanTick(c, m, t) && Inv(c, ControlTick(c, m, t))
  {
    hide RouteOk, OnLeg, RampOk, Dist, HomeTick, TeleopGate;
    NonNegative(c.homeV, t.dt);
    var m1 := m.(arm := Resync(c, m.arm, t.fk));
    if m.home.active {
      HomeTickKeeps(c, m1, t);
    }
  }

  function Apply(c: Config, m: Mode, e: Event): (m': Mode)
    requires c.Valid() && Inv(c, m) && EventOk(c, e)
    ensures Inv(c, m')
  {
    hide Inv, SenseOk;
    match e
    case Joints(fk) => JointsKeep(c, m, fk); JointsReady(m, fk)
    case Vr(i) => VrKeeps(c, m, i); VrTick(c, m, i)
    case Control(t) => ControlKeeps(c, m, t); ControlTick(c, m, t)
  }

  lemma JointsKeep(c: Config, m: Mode, fk: Vec)
    requires c.Valid() && Inv(c, m)
    ensures Inv(c, JointsReady(m, fk))
  {
  }

  // ---------------------------------------------------------------------------- whole runs

  /** The bridge as constructed: waiting for joint states. */
  function Boot(): Mode {
    Mode(Arm(false, false, false, false, 0, None, None, None),
         Homing(false, None, 1.0, 0.0, false, Origin(0, [], [])), false, None, Taping(false, false, 0),
         Buttons(false, false, false, false, 0.0, 0.0, -1000000000.0, -1000000000.0))
  }

  ghost predicate RunOk(c: Config, es: seq<Event>) {
    c.Valid() && forall k | 0 <= k < |es| :: EventOk(c, es[k])
  }

  /** The mode after the first k events of a run: always one that satisfies the invariant. */
  ghost function Reached(c: Config, es: seq<Event>, k: nat): (m: Mode)
    requires RunOk(c, es) && k <= |es|
    ensures Inv(c, m)
  {
    if k == 0 then Boot() else Apply(c, Reached(c, es, k - 1), es[k - 1])
  }

  // --------------------------------------------------------------------- how episodes end

  /** Episode n is being recorded. */
  predicate Running(m: Mode, n: nat) {
    m.rec.on && m.rec.episode == n
  }

  /** A MENU press that is acted on. */
  predicate Pressed(c: Config, m: Mode, e: Event) {
    e.Vr? && MenuEdge(c, m.keys, e.vr)
  }

  lemma PoseLeaves(m: Mode, i: VrInput)
    ensures var m' := PoseStage(m, i);
            && m' == m.(arm := m'.arm) && m'.arm.engaged == m.arm.engaged && m'.arm.ready == m.arm.ready
            && (!m.arm.engaged ==> m' == m)
  {
  }

  lemma PadLeaves(c: Config, m: Mode, i: VrInput)
    ensures var m' := PadStage(c, m, i);
            && m'.keys.menuWas == m.keys.menuWas && m'.keys.menuT == m.keys.menuT
            && (m'.home.stopRec ==> m'.home == m.home)
            && m'.rec.episode == m.rec.episode
            && (m'.rec.on <==> m.rec.on && !(m'.home != m.home && m.home.stopRec && c.hasRecorder))
  {
  }

  /** Before MENU is looked at, nothing but the end of a ramp touches the recorder or the ramp's orders. */
  lemma BeforeMenu(c: Config, m: Mode, i: VrInput)
    ensures var m' := PadStage(c, PoseStage(m, i), i);
            && m'.keys.menuWas == m.keys.menuWas && m'.keys.menuT == m.keys.menuT
            && (m'.home.stopRec ==> m'.home == m.home)
            && m'.rec.episode == m.rec.episode
            && (m'.rec.on <==> m.rec.on && !(m'.home != m.home && m.home.stopRec && c.hasRecorder))
  {
    hide PoseStage, PadStage;
    PoseLeaves(m, i);
    PadLeaves(c, PoseStage(m, i), i);
  }

  /** A ramp that will stop the recording was ordered by a MENU press during an episode, for that episode. */
  lemma AtMenu(c: Config, m: Mode, i: VrInput)
    requires c.Valid() && Inv(c, m)
    ensures var m' := MenuStage(c, m, i);
            && (!MenuEdge(c, m.keys, i) ==> m'.rec == m.rec && m'.home == m.home)
            && (m'.home.stopRec ==> m'.home == m.home || (MenuEdge(c, m.keys, i) && Running(m, m'.home.origin.episode)))
  {
  }

  /** After MENU, a ramp that is ended by the HOME button takes only its own episode with it. */
  lemma AfterMenu(c: Config, m: Mode, i: VrInput, n: nat)
    requires c.Valid() && Inv(c, m)
    ensures var m' := LockStage(c, HomeStage(c, m, i), i);
            && (m'.home.stopRec ==> m'.home == m.home)
            && (Running(m, n) && !Running(m', n) ==> m.home.stopRec)
  {
    hide Inv, RampStart, Disengage, LockPress, LockRelease;
    HomePressOrders(c, m.(keys := m.keys.(homeT := i.now)), i.homeSense);
    LockLeaves(c, HomeStage(c, m, i), i);
  }

  lemma HomePressOrders(c: Config, m: Mode, s: Sense)
    ensures var m' := HomePress(c, m, s);
            && (m'.home.stopRec ==> m'.home == m.home)
            && m'.rec.episode == m.rec.episode
            && (m.rec.on && !m'.rec.on ==> m.home.stopRec)
  {
  }

  lemma LockLeaves(c: Config, m: Mode, i: VrInput)
    ensures var m' := LockStage(c, m, i);
            && m'.home == m.home && m'.rec == m.rec && m'.arm.engaged == m.arm.engaged && m'.arm.lastCmd == m.arm.lastCmd
  {
  }

  /** One event: an order to stop at the end of a ramp is kept, or dropped, or given anew by MENU. */
  lemma OrderStep(c: Config, m: Mode, e: Event)
    requires c.Valid() && Inv(c, m) && EventOk(c, e)
    ensures var m' := Apply(c, m, e);
            m'.home.stopRec ==>
              (m.home.stopRec && m'.home.origin == m.home.origin) ||
              (Pressed(c, m, e) && Running(m, m'.home.origin.episode))
  {
    hide RampInv, SenseOk, PoseStage, PadStage, MenuStage, HomeStage, LockStage, Walk, RampOver, HomeGate, TeleopGate;
    match e
    case Joints(_) =>
    case Control(_) =>
    case Vr(i) =>
      BeforeMenu(c, m, i);
      PosePadKeep(c, m, i);
      PosePadKeep(c, PoseStage(m, i), i);
      var m1 := PadStage(c, PoseStage(m, i), i);
      AtMenu(c, m1, i);
      MenuKeeps(c, m1, i);
      AfterMenu(c, MenuStage(c, m1, i), i, 0);
  }

  /** One event: an episode ends because MENU was pressed, or because a ramp with an order for it ended. */
  lemma EpisodeStep(c: Config, m: Mode, e: Event, n: nat)
    requires c.Valid() && Inv(c, m) && EventOk(c, e) && Running(m, n) && !Running(Apply(c, m, e), n)
    ensures Pressed(c, m, e) || (m.home.stopRec && m.home.origin.episode == n)
  {
    hide RampInv, SenseOk, PoseStage, PadStage, MenuStage, HomeStage, LockStage, Walk, RampOver, HomeGate, TeleopGate;
    match e
    case Joints(_) =>
    case Control(_) =>
    case Vr(i) =>
      BeforeMenu(c, m, i);
      PosePadKeep(c, m, i);
      PosePadKeep(c, PoseStage(m, i), i);
      var m1 := PadStage(c, PoseStage(m, i), i);
      AtMenu(c, m1, i);
      MenuKeeps(c, m1, i);
      AfterMenu(c, MenuStage(c, m1, i), i, n);
  }

  /** Whenever a ramp is under orders to stop the recording, MENU was pressed during the episode it will stop. */
  lemma {:induction false} OrderFromMenu(c: Config, es: seq<Event>, k: nat) returns (j: nat)
    requires RunOk(c, es) && k <= |es| && Reached(c, es, k).home.stopRec
    ensures j < k && Pressed(c, Reached(c, es, j), es[j])
    ensures Running(Reached(c, es, j), Reached(c, es, k).home.origin.episode)
  {
    hide Inv, EventOk, Apply, Pressed;
    if k == 0 {
      assert false;
    } else {
      var m := Reached(c, es, k - 1);
      OrderStep(c, m, es[k - 1]);
      if m.home.stopRec && Reached(c, es, k).home.origin == m.home.origin {
        j := OrderFromMenu(c, es, k - 1);
      } else {
        j := k - 1;
      }
    }
  }

  /** In every run, whatever ends an episode, MENU was pressed while that very episode was being recorded. */
  lemma EpisodeEndsByItsOwnMenu(c: Config, es: seq<Event>, k: nat, n: nat) returns (j: nat)
    requires RunOk(c, es) && k < |es| && Running(Reached(c, es, k), n) && !Running(Reached(c, es, k + 1), n)
    ensures j <= k && Pressed(c, Reached(c, es, j), es[j]) && Running(Reached(c, es, j), n)
  {
    hide Inv, EventOk, Apply, Pressed;
    EpisodeStep(c, Reached(c, es, k), es[k], n);
    if Reached(c, es, k).home.stopRec && Reached(c, es, k).home.origin.episode == n {
      j := OrderFromMenu(c, es, k);
    } else {
      j := k;
    }
  }

  // ------------------------------------------------------------------------ the freezes

  /** A control tick takes the clutch away exactly when the gate or the follow check fires, and then sends nothing. */
  lemma AutoFreeze(c: Config, m: Mode, t: TickInput)
    requires c.Valid() && Inv(c, m) && m.arm.engaged && |t.measured| == c.p.dim && t.dt >= 0.0
    ensures CanTick(c, m, t)
    ensures var m' := ControlTick(c, m, t);
            && (!m'.arm.engaged <==> t.jointsFresh && (TeleopGate(c, t) || t.stuck))
            && (!m'.arm.engaged ==> !m'.axlock && m'.lock == None && m'.arm.lastCmd == m.arm.lastCmd)
            && m'.rec == m.rec
  {
  }

  /**
   HOME is refused without side effects while an episode runs. A refusal that comes later, for want of a route
   or for limits, and no other, takes the clutch away.
   */
  lemma HomeRefused(c: Config, m: Mode, s: Sense)
    requires c.Valid() && Inv(c, m) && !StartHome(c, m, false, s).1
    ensures var m' := StartHome(c, m, false, s).0;
            && (m.rec.on ==> m' == m)
            && (m' != m ==> m.arm.engaged && !m'.arm.engaged && !m'.axlock)
            && (m.arm.engaged && !HomeIgnored(c, m, false, s) <==> m.arm.engaged && !m'.arm.engaged)
            && m'.home == m.home && m'.rec == m.rec && m'.arm.lastCmd == m.arm.lastCmd
  {
  }

  /** A clutch press while homing ends the ramp and does no more: it takes a second press to engage. */
  lemma ClutchStopsHoming(c: Config, m: Mode, i: VrInput)
    requires c.Valid() && Inv(c, m) && m.home.active
    requires i.pad && !m.keys.padWas && i.now - m.keys.padT >= c.padBounce
    ensures var m' := PadStage(c, m, i);
            && !m'.home.active && !m'.arm.engaged && m'.arm.lastCmd == m.arm.lastCmd
            && (m'.rec.on <==> m.rec.on && !m.home.stopRec)
  {
  }

  // ---------------------------------------------------------------- who holds the clutch

  /** A clutch press that is acted on. */
  predicate PadEdge(c: Config, k: Buttons, i: VrInput) {
    i.pad && !k.padWas && i.now - k.padT >= c.padBounce
  }

  /** A HOME press that is acted on. */
  predicate HomeEdge(c: Config, k: Buttons, i: VrInput) {
    i.home && !k.homeWas && i.now - k.homeT > c.homeDebounce
  }

  /** A press of the clutch after a pause, or of MENU, with the hand tracked. */
  predicate ByHand(c: Config, m: Mode, e: Event) {
    && e.Vr? && e.vr.live
    && ((PadEdge(c, m.keys, e.vr) && e.vr.now - m.keys.padT > c.padDebounce) || MenuEdge(c, m.keys, e.vr))
  }

  lemma PadClutch(c: Config, m: Mode, i: VrInput)
    ensures var m' := PadStage(c, m, i);
            && m'.keys == m.keys.(padT := m'.keys.padT, padWas := i.pad) && m'.arm.ready == m.arm.ready
            && (!m.arm.engaged && m'.arm.engaged ==>
                  PadEdge(c, m.keys, i) && i.now - m.keys.padT > c.padDebounce && i.live && m.arm.ready && !m.home.active)
            && (m.arm.engaged && !m'.arm.engaged ==> PadEdge(c, m.keys, i))
  {
  }

  lemma MenuClutch(c: Config, m: Mode, i: VrInput)
    ensures var m' := MenuStage(c, m, i);
            && m'.keys == m.keys.(menuT := m'.keys.menuT, menuWas := i.menu)
            && (!MenuEdge(c, m.keys, i) ==> m' == m.(keys := m'.keys))
            && (!m.arm.engaged && m'.arm.engaged ==> i.live && m.arm.ready)
  {
    hide RampStart;
  }

  lemma HomeClutch(c: Config, m: Mode, i: VrInput)
    ensures var m' := HomeStage(c, m, i);
            && (!HomeEdge(c, m.keys, i) ==> m' == m.(keys := m'.keys))
            && (m'.arm.engaged ==> m.arm.engaged)
  {
    hide RampStart;
  }

  lemma VrClutch(c: Config, m: Mode, i: VrInput)
    requires c.Valid() && Inv(c, m)
    ensures var m' := VrTick(c, m, i);
            && (!m.arm.engaged && m'.arm.engaged ==> m.arm.ready && ByHand(c, m, Vr(i)))
            && (m.arm.engaged && !m'.arm.engaged ==>
                  PadEdge(c, m.keys, i) || MenuEdge(c, m.keys, i) || HomeEdge(c, m.keys, i))
            && (m.home.active && m'.arm.engaged ==> MenuEdge(c, m.keys, i))
  {
    hide RampInv, PoseStage, PadStage, MenuStage, HomeStage, LockStage;
    var m1 := PoseStage(m, i);
    PoseLeaves(m, i);
    var m2 := PadStage(c, m1, i);
    PadClutch(c, m1, i);
    var m3 := MenuStage(c, m2, i);
    MenuClutch(c, m2, i);
    HomeClutch(c, m3, i);
    LockLeaves(c, HomeStage(c, m3, i), i);
  }

  /**
   The clutch in one event of a run. Joint states leave it. A control tick drops it exactly when the gate or the
   follow check fires on fresh joints. A button tick takes it only by the hand on the clutch or on MENU, drops
   it only by a press, and one that finds the arm homing leaves it engaged only by MENU.
   */
  lemma ClutchStep(c: Config, m: Mode, e: Event)
    requires c.Valid() && Inv(c, m) && EventOk(c, e)
    ensures var on, on' := m.arm.engaged, Apply(c, m, e).arm.engaged;
            match e
            case Joints(_) => on' == on
            case Control(t) => on' == (on && !(t.jointsFresh && (TeleopGate(c, t) || t.stuck)))
            case Vr(i) =>
              && (!on && on' ==> m.arm.ready && ByHand(c, m, e))
              && (on && !on' ==> PadEdge(c, m.keys, i) || MenuEdge(c, m.keys, i) || HomeEdge(c, m.keys, i))
              && (m.home.active && on' ==> MenuEdge(c, m.keys, i))
  {
    hide RampInv, SenseOk, VrTick, TeleopGate, Walk, RampOver, HomeGate, MenuEdge, PadEdge, HomeEdge;
    match e
    case Joints(_) =>
    case Control(t) =>
      if m.arm.engaged {
        AutoFreeze(c, m, t);
      }
    case Vr(i) => VrClutch(c, m, i);
  }

  /** In every run, an arm that is engaged has been so since a press of the clutch or of MENU with the hand tracked. */
  lemma {:induction false} EngagedByHand(c: Config, es: seq<Event>, k: nat) returns (j: nat)
    requires RunOk(c, es) && k <= |es| && Reached(c, es, k).arm.engaged
    ensures j < k && Reached(c, es, j).arm.ready && ByHand(c, Reached(c, es, j), es[j])
    ensures !Reached(c, es, j).arm.engaged && forall i | j < i <= k :: Reached(c, es, i).arm.engaged
  {
    hide Inv, EventOk, Apply, ByHand;
    if k == 0 {
      assert false;
    } else {
      ClutchStep(c, Reached(c, es, k - 1), es[k - 1]);
      if Reached(c, es, k - 1).arm.engaged {
        j := EngagedByHand(c, es, k - 1);
      } else {
        j := k - 1;
      }
    }
  }

  /** A clutch press while homing, with no other button, ends the ramp and does no more. */
  lemma PressStopsHoming(c: Config, m: Mode, i: VrInput)
    requires c.Valid() && Inv(c, m) && EventOk(c, Vr(i)) && m.home.active
    requires PadEdge(c, m.keys, i) && !MenuEdge(c, m.keys, i) && !HomeEdge(c, m.keys, i)
    ensures var m' := Apply(c, m, Vr(i));
            && !m'.home.active && !m'.arm.engaged && m'.arm.lastCmd == m.arm.lastCmd
            && (m'.rec.on <==> m.rec.on && !m.home.stopRec)
  {
    hide RampInv, SenseOk, PoseStage, PadStage, MenuStage, HomeStage, LockStage;
    PoseLeaves(m, i);
    PadClutch(c, m, i);
    ClutchStopsHoming(c, m, i);
    MenuClutch(c, PadStage(c, m, i), i);
    HomeClutch(c, MenuStage(c, PadStage(c, m, i), i), i);
    LockLeaves(c, HomeStage(c, MenuStage(c, PadStage(c, m, i), i), i), i);
  }

  // -------------------------------------------------------- homing commands are certified

  /** How far a command can be from a checked pose: the slack of its leg, and on the first leg the lead. */
  function OffRoute(c: Config, h: Homing): real
    requires h.ramp.Some? && RampOk(h.ramp.value, |h.origin.measured|)
  {
    var r := h.ramp.value;
    Slack(c.p, Leg(h.origin.measured, r.wps, r.i).0, r.wps[r.i]) + if r.i == 0 then c.lead else 0.0
  }

  /**
   In every run, whatever the buttons did before: each command sent while homing moves at most one step
   from the last one and is as clear of collision as the route it walks was certified to be.
   */
  lemma HomingCommandClear(c: Config, es: seq<Event>, k: nat, L: real)
    requires RunOk(c, es) && k < |es| && es[k].Control?
    requires var m, t := Reached(c, es, k), es[k].tick;
             m.home.active && t.jointsFresh && !HomeGate(c, m.home, t)
    requires Lipschitz(c.p.margin, Reached(c, es, k).home.scale, c.p.dim, L)
    ensures var h, cmd := Reached(c, es, k).home, Reached(c, es, k + 1).arm.lastCmd;
            && cmd.Some? && |cmd.value| == c.p.dim
            && Dist(h.ramp.value.cur, cmd.value) <= TickStep(c, es[k].tick)
            && c.p.margin(cmd.value, h.scale) >=
               Drop(h.floor, L, OffRoute(c, h))
  {
    hide Inv, Apply, RampOk, Lipschitz, Drop, Dist, HomeGate, c.Valid;
    assert EventOk(c, es[k]);
    HomeStepClear(c, Reached(c, es, k), es[k].tick, L);
  }

  /** What a homing tick sends: the walk's next pose, even on the tick that ends the ramp. */
  lemma HomeSends(c: Config, m: Mode, t: TickInput)
    requires CanTick(c, m, t) && m.home.active && m.arm.ready && t.jointsFresh && !HomeGate(c, m.home, t)
    ensures ControlTick(c, m, t).arm.lastCmd == Some(Walk(m.home.ramp.value, TickStep(c, t), t.now, c.dwell).cur)
  {
  }

  lemma HomeStepClear(c: Config, m: Mode, t: TickInput, L: real)
    requires c.Valid() && Inv(c, m) && EventOk(c, Control(t))
    requires m.home.active && t.jointsFresh && !HomeGate(c, m.home, t)
    requires Lipschitz(c.p.margin, m.home.scale, c.p.dim, L)
    ensures var h, cmd := m.home, Apply(c, m, Control(t)).arm.lastCmd;
            && cmd.Some? && |cmd.value| == c.p.dim
            && Dist(h.ramp.value.cur, cmd.value) <= TickStep(c, t)
            && c.p.margin(cmd.value, h.scale) >=
               Drop(h.floor, L, OffRoute(c, h))
  {
    hide Certificate, FloorMin, Lipschitz, Drop, Dist, Lerp, OnSegment, Walk, HomeGate, Moving, Steer, ControlTick;
    ControlKeeps(c, m, t);
    HomeSends(c, m, t);
    var r, start, step := m.home.ramp.value, m.home.origin.start, TickStep(c, t);
    WalkTick(start, r, step, t.now, c.dwell);
    var r' := Walk(r, step, t.now, c.dwell);
    CommandClear(c.p, m.home.origin.measured, c.homeQ, start, r.(cur := r'.cur), m.home.scale, L, c.lead);
  }

  // ------------------------------------------------------------------------ every ramp ends

  /** A control tick that the ramp sees. */
  predicate RampSees(e: Event) {
    e.Control? && e.tick.jointsFresh
  }

  /** The ramp goes on over an event: it is not ended, and only a tick moves it. */
  predicate GoesOn(m: Mode, e: Event, m': Mode) {
    m.home.active && m'.home.active && (RampSees(e) || m'.home.ramp == m.home.ramp)
  }

  /** The ramp under way before event j still is after the events up to k. */
  ghost predicate Going(c: Config, es: seq<Event>, j: nat, k: nat)
    requires RunOk(c, es) && j <= k <= |es|
  {
    forall i, n | j <= i && n == i + 1 && n <= k :: GoesOn(Reached(c, es, i), es[i], Reached(c, es, n))
  }

  /** The ticks it has seen by then. */
  function RampTicks(c: Config, es: seq<Event>, j: nat, k: nat): seq<Tick>
    requires j <= k <= |es|
  {
    if k == j then []
    else WithTick(c, RampTicks(c, es, j, k - 1), es[k - 1])
  }

  lemma OverdueIsOver(c: Config, r: Ramp, t: TickInput)
    requires RampOk(r, c.p.dim) && |t.measured| == c.p.dim && TickStep(c, t) >= 0.0
    requires Overdue(r, Tick(TickStep(c, t), t.now), c.grace, c.p.dim)
    ensures RampOver(c, r, HomeWalk(c, r, t), t)
  {
    hide Dist;
  }

  lemma TickGoesOn(c: Config, m: Mode, t: TickInput)
    requires c.Valid() && Inv(c, m) && EventOk(c, Control(t)) && t.jointsFresh
    requires m.home.active && Apply(c, m, Control(t)).home.active
    ensures RampOk(m.home.ramp.value, c.p.dim)
    ensures var r, tick := m.home.ramp.value, Tick(TickStep(c, t), t.now);
            && tick.step >= 0.0 && Apply(c, m, Control(t)).home.ramp == Some(Walk(r, tick.step, tick.now, c.dwell))
            && !Overdue(r, tick, c.grace, c.p.dim)
  {
    NonNegative(c.homeV, t.dt);
    hide RouteOk, OnLeg, Dist, Walk, Moving, Overdue, RampOver, RampOk;
    if Overdue(m.home.ramp.value, Tick(TickStep(c, t), t.now), c.grace, c.p.dim) {
      OverdueIsOver(c, m.home.ramp.value, t);
      assert false;
    }
  }

  /** The ticks with one more event. */
  function WithTick(c: Config, ts: seq<Tick>, e: Event): seq<Tick> {
    ts + if RampSees(e) then [Tick(TickStep(c, e.tick), e.tick.now)] else []
  }

  lemma WalkGoesOn(c: Config, m: Mode, e: Event, r: Ramp, ts: seq<Tick>)
    requires c.Valid() && Inv(c, m) && EventOk(c, e) && GoesOn(m, e, Apply(c, m, e))
    requires RampOk(r, c.p.dim) && TicksOk(ts) && NeverOverdue(r, ts, c.dwell, c.grace, c.p.dim)
    requires m.home.ramp == Some(HomeRamp.After(r, ts, c.dwell, |ts|, c.p.dim))
    ensures var ts' := WithTick(c, ts, e);
            && TicksOk(ts') && NeverOverdue(r, ts', c.dwell, c.grace, c.p.dim)
            && Apply(c, m, e).home.ramp == Some(HomeRamp.After(r, ts', c.dwell, |ts'|, c.p.dim))
  {
    hide Inv, Apply, NeverOverdue, HomeRamp.After, RampOk, Overdue, Walk, TicksOk, TickStep;
    if RampSees(e) {
      TickGoesOn(c, m, e.tick);
      OneMoreTick(r, ts, Tick(TickStep(c, e.tick), e.tick.now), c.dwell, c.grace, c.p.dim);
    } else {
      assert ts + [] == ts;
    }
  }

  /** The ramp of a run is the walk over the ticks it has seen, none of which found it overdue. */
  lemma {:induction false} RampIsWalk(c: Config, es: seq<Event>, j: nat, k: nat, r: Ramp)
    requires RunOk(c, es) && j <= k <= |es| && Going(c, es, j, k)
    requires Reached(c, es, j).home.ramp == Some(r) && RampOk(r, c.p.dim)
    ensures var ts := RampTicks(c, es, j, k);
            && TicksOk(ts) && NeverOverdue(r, ts, c.dwell, c.grace, c.p.dim)
            && Reached(c, es, k).home.ramp == Some(HomeRamp.After(r, ts, c.dwell, |ts|, c.p.dim))
  {
    hide Inv, NeverOverdue, RampOk, EventOk, WithTick, GoesOn, Reached, Going, HomeRamp.After, TicksOk;
    if k > j {
      GoingStep(c, es, j, k);
      RampIsWalk(c, es, j, k - 1, r);
      WalkGoesOn(c, Reached(c, es, k - 1), es[k - 1], r, RampTicks(c, es, j, k - 1));
    } else {
      NoTicks(c, r);
    }
  }

  lemma GoingStep(c: Config, es: seq<Event>, j: nat, k: nat)
    requires RunOk(c, es) && j < k <= |es| && Going(c, es, j, k)
    ensures Going(c, es, j, k - 1) && EventOk(c, es[k - 1])
    ensures Reached(c, es, k) == Apply(c, Reached(c, es, k - 1), es[k - 1])
    ensures GoesOn(Reached(c, es, k - 1), es[k - 1], Reached(c, es, k))
  {
    hide Inv, EventOk, GoesOn, Apply;
    var i := k - 1;
    assert GoesOn(Reached(c, es, i), es[i], Reached(c, es, k));
  }

  lemma NoTicks(c: Config, r: Ramp)
    requires RampOk(r, c.p.dim)
    ensures TicksOk([]) && NeverOverdue(r, [], c.dwell, c.grace, c.p.dim) && HomeRamp.After(r, [], c.dwell, 0, c.p.dim) == r
  {
  }

  lemma RampSized(c: Config, m: Mode)
    requires c.Valid() && Inv(c, m) && m.home.active
    ensures m.home.ramp.Some? && RampOk(m.home.ramp.value, c.p.dim)
  {
  }

  /**
   In every run a ramp ends: with ticks at least d apart, and d or more of pace in each, a ramp that nothing else
   has ended has seen at most as many ticks as its way, its dwells and its grace allow, however the robot follows.
   */
  lemma RampEnds(c: Config, es: seq<Event>, j: nat, k: nat, t: real, d: real, smin: real)
    requires RunOk(c, es) && j <= k <= |es| && Going(c, es, j, k) && Reached(c, es, j).home.active
    requires var r := Reached(c, es, j).home.ramp.value; r.dwellT.None? && r.doneT.None?
    requires d > 0.0 && c.dwell >= 0.0 && c.grace >= 0.0 && smin > 0.0 && ScaledBy(c.homeV, d, smin)
    requires Spaced(RampTicks(c, es, j, k), t, d)
    requires forall i | j <= i < k && RampSees(es[i]) :: es[i].tick.dt >= d
    ensures var r := Reached(c, es, j).home.ramp.value;
            && RampOk(r, c.p.dim)
            && |RampTicks(c, es, j, k)| as real <= TickBound(r, smin, d, c.dwell, c.grace, c.p.dim)
  {
    RampSized(c, Reached(c, es, j));
    assert c.homeV >= 0.0;
    var r := Reached(c, es, j).home.ramp.value;
    hide Inv, Reached, Going, RampOk, Remaining, NeverOverdue, Spaced, HomeRamp.After, ScaledBy, RampTicks, TicksOk, TickBound;
    RampIsWalk(c, es, j, k, r);
    TicksLong(c, es, j, k, d, smin);
    RampTicksBounded(r, t, RampTicks(c, es, j, k), d, smin, c.dwell, c.grace, c.p.dim);
  }

  lemma {:induction false} TicksLong(c: Config, es: seq<Event>, j: nat, k: nat, d: real, smin: real)
    requires j <= k <= |es| && c.homeV >= 0.0 && ScaledBy(c.homeV, d, smin)
    requires forall i | j <= i < k && RampSees(es[i]) :: es[i].tick.dt >= d
    ensures forall l | 0 <= l < |RampTicks(c, es, j, k)| :: RampTicks(c, es, j, k)[l].step >= smin
  {
    if k > j {
      TicksLong(c, es, j, k - 1, d, smin);
      if RampSees(es[k - 1]) {
        ScaleMonotone(c.homeV, d, es[k - 1].tick.dt);
        assert TickStep(c, es[k - 1].tick) >= smin;
      }
    }
  }

  // ------------------------------------------------------------------------- the live gate

  /** With non-negative pair floors, a smaller cushion only leaves more margin. */
  lemma MarginAntitone(dists: seq<real>, floors: seq<real>, s: real, t: real)
    requires |dists| == |floors| > 0 && s <= t
    requires forall k | 0 <= k < |floors| :: floors[k] >= 0.0
    ensures MarginOf(dists, floors, s) >= MarginOf(dists, floors, t)
  {
    hide MarginOf;
    MarginIsPairwise(dists, floors, t, MarginOf(dists, floors, t));
    forall k | 0 <= k < |dists| ensures dists[k] >= s * floors[k] + MarginOf(dists, floors, t) {
      ScaleMonotone(floors[k], s, t);
    }
    MarginIsPairwise(dists, floors, s, MarginOf(dists, floors, t));
  }

  /**
   The live gate never fires at a pose that meets the margin the route was certified at, so not at the pose
   it starts from either; and on a straight, unrelaxed ramp it is the gate of teleoperation.
   */
  lemma GateQuietOnRoute(c: Config, h: Homing, t: TickInput, dist: Vec -> seq<real>, floors: seq<real>)
    requires c.Valid() && RampInv(c, h) && h.ramp.Some? && |t.measured| == c.p.dim
    requires PairMargin(c.p.margin, c.p.dim, dist, floors) && forall k | 0 <= k < |floors| :: floors[k] >= 0.0
    ensures c.p.margin(t.measured, h.scale) >= h.floor ==> !HomeGate(c, h, t)
    ensures t.measured == h.origin.measured ==> !HomeGate(c, h, t)
    ensures h.scale == 1.0 && h.floor == 0.0 && c.gateFrac <= 1.0 ==> (HomeGate(c, h, t) <==> TeleopGate(c, t))
  {
    hide MarginOf, Certificate, OnLeg, RampOk, Dist;
    MarginAntitone(dist(t.measured), floors, Min(c.gateFrac, h.scale), h.scale);
  }
}
