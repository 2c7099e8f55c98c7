// The bridge node: its mode, updated in place by the button, joint-state and control callbacks. Each method
// is tied to the function of BridgeModes that gives the new mode from the old one.
module Bridge {
  import opened Options
  import opened JointSpace
  import opened EdgeCheck
  import opened Environment
  import opened HomePlan
  import opened HomeRamp
  import opened BridgeModes
  import opened BridgeRuns

  class Node {
    const c: Config
    var arm: Arm
    var home: Homing
    var axlock: bool
    var lock: Option<Lock>
    var rec: Taping
    var keys: Buttons

    ghost function View(): Mode
      reads this
    {
      Mode(arm, home, axlock, lock, rec, keys)
    }

    constructor (c: Config)
      ensures this.c == c && View() == Boot()
    {
      this.c := c;
      arm := Arm(false, false, false, false, 0, None, None, None);
      home := Homing(false, None, 1.0, 0.0, false, Origin(0, [], []));
      axlock, lock := false, None;
      rec := Taping(false, false, 0);
      keys := Buttons(false, false, false, false, 0.0, 0.0, -1000000000.0, -1000000000.0);
    }

    // ------------------------------------------------------------------------ the actions

    method AxlockClear() returns (was: bool)
      modifies this`axlock, this`lock
      ensures View() == ClearLock(old(View())) && was == old(axlock)
    {
      was := axlock;
      if axlock {
        axlock, lock := false, None;
      }
    }

    method OnEngage()
      modifies this`arm
      ensures View() == Engage(old(View()))
    {
      arm := arm.(engaged := true, poseLost := false, blend := 0);
      arm := arm.(anchor := arm.target);
    }

    method OnDisengage(jointsFresh: bool, fk: Vec)
      modifies this`axlock, this`lock, this`arm
      ensures View() == Disengage(c, old(View()), jointsFresh, fk)
    {
      var _ := AxlockClear();
      arm := arm.(engaged := false);
      if jointsFresh {
        arm := arm.(blend := c.blendTicks);
      }
      arm := arm.(target := Some(fk));
    }

    method AxlockEngage(axis: Option<(Vec, Vec)>)
      modifies this`axlock, this`lock
      ensures View() == LockEngage(old(View()), axis)
    {
      if axis.Some? {
        lock := Some(Lock(arm.target, axis.value.0, axis.value.1));
        axlock := true;
      }
    }

    method AxlockRelease(live: bool)
      modifies this`axlock, this`lock, this`arm
      ensures View() == LockRelease(old(View()), live)
    {
      var was := AxlockClear();
      if was && arm.engaged && live {
        arm := arm.(anchor := arm.target);
      }
    }

    /**
     The route home from q: straight if that is clear at the full cushion, else the plan the planner's attempts
     call for, with the floor it was searched at, or none if it has none. Any route returned is certified from q.
     */
    method FindHomeRoute(w: World, q: Vec, usePlanner: bool, planTime: real)
      returns (route: Option<HomeRoute>, ghost plan: Option<Plan>, ghost log: seq<Attempt>)
      requires c.Valid() && |q| == c.p.dim && w.Ticking()
      modifies w`readings, w`draws
      ensures route.Some? ==> RouteOk(c, q, route.value)
      ensures c.p.EdgeOk(q, c.homeQ, 1.0, 0.0) ==> route == Some(HomeRoute([c.homeQ], 1.0, 0.0))
      ensures !c.p.EdgeOk(q, c.homeQ, 1.0, 0.0) && !usePlanner ==> route == None
      ensures !c.p.EdgeOk(q, c.homeQ, 1.0, 0.0) && usePlanner ==>
                && AllSound(c.p, q, c.homeQ, log) && Chosen(c.p, q, c.homeQ, log, plan)
                && Keys(log) <= Schedule(c.p, q, c.homeQ, 0)
                && route == RouteOf(c, q, plan)
    {
      hide Certificate, Certified, Dist, AllSound, Chosen, Keys, Schedule;
      plan, log := None, [];
      var clear := HomePathClear(c.p.margin, q, c.homeQ, c.p.step);
      if clear {
        ClearPathIsPlan(c.p, q, c.homeQ);
        route := Some(HomeRoute([c.homeQ], 1.0, 0.0));
        return;
      }
      if !usePlanner {
        route := None;
        return;
      }
      var t0 := w.Now();
      var got;
      got, log := FindPlan(c.p, w, q, c.homeQ, t0 + planTime, 0);
      plan := got;
      if got.None? {
        route := None;
        return;
      }
      ChosenIsCertified(c, q, log, got.value);
      var floor := Min(0.0, c.p.margin(q, got.value.scale));
      route := Some(HomeRoute(got.value.path, got.value.scale, floor));
    }

    method StartHome(stopRec: bool, s: Sense) returns (started: bool)
      modifies this
      ensures (View(), started) == BridgeModes.StartHome(c, old(View()), stopRec, s)
    {
      hide Dist;
      if home.active {
        return false;
      }
      if !arm.ready || !s.jointsFresh {
        return false;
      }
      if !stopRec && c.hasRecorder && rec.on {
        return false;
      }
      if arm.engaged {
        OnDisengage(s.jointsFresh, s.fk);
        arm := arm.(blend := 0);
      }
      if !s.inLimits || s.route.None? {
        return false;
      }
      var start := s.measured;
      if arm.lastCmd.Some? && |arm.lastCmd.value| == |s.measured| && Dist(arm.lastCmd.value, s.measured) <= c.lead {
        start := arm.lastCmd.value;
      }
      home := Homing(true, Some(Ramp(s.route.value.wps, 0, start, None, None)), s.route.value.scale,
                     s.route.value.floor, stopRec, Origin(rec.episode, s.measured, start));
      started := true;
    }

    method EndHome(fk: Vec)
      modifies this
      ensures View() == BridgeModes.EndHome(c, old(View()), fk)
    {
      home := home.(active := false, ramp := None, scale := 1.0, floor := 0.0);
      if home.stopRec {
        home := home.(stopRec := false);
        if c.hasRecorder {
          rec := rec.(on := false);
        }
      }
      arm := arm.(blend := 0, target := Some(fk));
      arm := arm.(anchor := arm.target);
    }

    // ------------------------------------------------------------------------ the callbacks

    method HomeTick(t: TickInput)
      requires home.ramp.Some? && TickStep(c, t) >= 0.0
      requires RampOk(home.ramp.value, |t.measured|)
      modifies this
      ensures View() == BridgeModes.HomeTick(c, old(View()), t)
    {
      hide Dist, Lerp;
      if t.gateDue && c.p.margin(t.measured, Min(c.gateFrac, home.scale)) < home.floor {
        EndHome(t.fk);
        return;
      }
      var r, step := home.ramp.value, TickStep(c, t);
      var tgt := r.wps[r.i];
      var dmax := Dist(r.cur, tgt);
      if dmax > step {
        r := r.(cur := Lerp(r.cur, tgt, step / dmax));
        home, arm := home.(ramp := Some(r)), arm.(lastCmd := Some(r.cur));
        return;
      }
      r := r.(cur := tgt);
      arm := arm.(lastCmd := Some(r.cur));
      if r.i < |r.wps| - 1 {
        if r.dwellT.None? {
          r := r.(dwellT := Some(t.now));
        } else if t.now - r.dwellT.value >= c.dwell {
          r := r.(i := r.i + 1, dwellT := None);
        }
        home := home.(ramp := Some(r));
        return;
      }
      if r.doneT.None? {
        r := r.(doneT := Some(t.now));
      }
      home := home.(ramp := Some(r));
      var lag := Dist(t.measured, tgt);
      if lag < c.doneTol {
        EndHome(t.fk);
      } else if t.now - r.doneT.value > c.grace {
        EndHome(t.fk);
      }
    }

    method MovePose(i: VrInput)
      modifies this`arm
      ensures View() == PoseStage(old(View()), i)
    {
      if arm.ready && arm.engaged {
        if !i.live {
          arm := arm.(poseLost := true);
        } else {
          if arm.poseLost {
            arm := arm.(poseLost := false);
            arm := arm.(anchor := arm.target);
          }
          arm := arm.(target := Some(i.newTarget));
        }
      }
    }

    method HandlePad(i: VrInput)
      modifies this
      ensures View() == PadStage(c, old(View()), i)
    {
      if i.pad && !keys.padWas {
        if i.now - keys.padT < c.padBounce {
        } else if home.active {
          keys := keys.(padT := i.now);
          EndHome(i.homeSense.fk);
        } else if arm.engaged {
          keys := keys.(padT := i.now);
          OnDisengage(i.homeSense.jointsFresh, i.homeSense.fk);
        } else if i.now - keys.padT > c.padDebounce {
          if arm.ready && i.live {
            keys := keys.(padT := i.now);
            OnEngage();
          }
        }
      }
      keys := keys.(padWas := i.pad);
    }

    method HandleMenu(i: VrInput)
      modifies this
      ensures View() == MenuStage(c, old(View()), i)
    {
      if i.menu && !keys.menuWas && i.now - keys.menuT > c.menuDebounce {
        keys := keys.(menuT := i.now);
        MenuAction(i);
      }
      keys := keys.(menuWas := i.menu);
    }

    method MenuAction(i: VrInput)
      modifies this
      ensures View() == MenuPress(c, old(View()), i)
    {
      hide BridgeModes.StartHome;
      if c.hasRecorder {
        if rec.on {
          var homed := false;
          if c.homeOnStop {
            homed := StartHome(true, i.menuSense);
          }
          if !homed {
            rec := rec.(on := false);
            if arm.engaged {
              OnDisengage(i.menuSense.jointsFresh, i.menuSense.fk);
            }
          }
        } else if !home.active {
          if !arm.engaged && arm.ready && i.live {
            OnEngage();
          }
          if arm.engaged {
            if i.recorderStarts {
              rec := rec.(on := true, episode := rec.episode + 1);
            } else {
              OnDisengage(i.menuSense.jointsFresh, i.menuSense.fk);
            }
          }
        }
      } else {
        rec := rec.(mark := !rec.mark);
      }
    }

    method HandleHome(i: VrInput)
      modifies this
      ensures View() == HomeStage(c, old(View()), i)
    {
      hide BridgeModes.StartHome;
      if i.home && !keys.homeWas && i.now - keys.homeT > c.homeDebounce {
        keys := keys.(homeT := i.now);
        if home.active {
          EndHome(i.homeSense.fk);
        } else {
          var _ := StartHome(false, i.homeSense);
        }
      }
      keys := keys.(homeWas := i.home);
    }

    method HandleLock(i: VrInput)
      modifies this
      ensures View() == LockStage(c, old(View()), i)
    {
      var axl := c.axisLock && i.lock;
      if axl && !keys.lockWas && i.now - keys.lockT > c.lockDebounce {
        keys := keys.(lockT := i.now);
        if axlock {
          if c.toggleLock {
            AxlockRelease(i.live);
          }
        } else if !(home.active || !arm.engaged) {
          AxlockEngage(i.lockAxis);
        }
      }
      if axlock && !c.toggleLock && !axl {
        AxlockRelease(i.live);
      }
      keys := keys.(lockWas := axl);
    }

    /** vr_tick. */
    method OnVr(i: VrInput)
      modifies this
      ensures View() == VrTick(c, old(View()), i)
    {
      hide PoseStage, PadStage, MenuStage, HomeStage, LockStage;
      MovePose(i);
      HandlePad(i);
      HandleMenu(i);
      HandleHome(i);
      HandleLock(i);
    }

    /** tick, as far as the modes and the command go. */
    method OnTick(t: TickInput)
      requires CanTick(c, View(), t)
      modifies this
      ensures View() == ControlTick(c, old(View()), t)
    {
      hide BridgeModes.HomeTick, RampOk;
      if !arm.ready {
        return;
      }
      if !t.jointsFresh {
        arm := arm.(jointsLost := true);
        return;
      }
      if arm.jointsLost {
        arm := arm.(jointsLost := false, blend := c.blendTicks, target := Some(t.fk));
        if arm.engaged {
          arm := arm.(poseLost := true);
        }
      }
      if home.active {
        HomeTick(t);
        return;
      }
      if arm.engaged && t.gateDue && c.p.margin(t.measured, c.gateFrac) < 0.0 {
        OnDisengage(t.jointsFresh, t.fk);
        return;
      }
      if arm.engaged && t.stuck {
        OnDisengage(t.jointsFresh, t.fk);
        return;
      }
      if arm.blend > 0 {
        arm := arm.(blend := arm.blend - 1);
      }
      arm := arm.(lastCmd := Some(t.q));
    }

    method OnJointStates(fk: Vec)
      modifies this`arm
      ensures View() == JointsReady(old(View()), fk)
    {
      if !arm.ready {
        arm := arm.(target := Some(fk), anchor := Some(fk), engaged := false, ready := true);
      }
    }
  }

  /** The ramp's route for a plan found from q: its waypoints, its scale and the floor of the pose it starts from. */
  function RouteOf(c: Config, q: Vec, plan: Option<Plan>): Option<HomeRoute> {
    if plan.None? then None
    else Some(HomeRoute(plan.value.path, plan.value.scale, Min(0.0, c.p.margin(q, plan.value.scale))))
  }

  lemma ChosenIsCertified(c: Config, q: Vec, log: seq<Attempt>, plan: Plan)
    requires c.Valid() && |q| == c.p.dim && AllSound(c.p, q, c.homeQ, log) && Chosen(c.p, q, c.homeQ, log, Some(plan))
    ensures plan.path != [] && Certificate(c.p, q, c.homeQ, plan.path, plan.scale, FloorMin(c.p, q, plan.scale))
  {
  }
}
