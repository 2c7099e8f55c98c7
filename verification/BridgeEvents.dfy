// What one event does to the bridge, in plain terms: a button tick as five steps one after another, a control
// tick while homing and while teleoperating, the first joint state.
module BridgeEvents {
  import opened Options
  import opened JointSpace
  import opened HomeRamp
  import opened RrtConnect
  import opened BridgeModes
  import opened BridgeRuns

  // ---------------------------------------------------------------------------- what can happen

  /** The clutch is dropped and with it the lock; the target is parked on the present pose; nothing else moves. */
  ghost predicate Froze(m: Mode, m': Mode, fk: Vec, blend: nat) {
    && !m'.arm.engaged && m'.arm.target == Some(fk) && m'.arm.blend == blend
    && m'.arm.ready == m.arm.ready && m'.arm.poseLost == m.arm.poseLost && m'.arm.jointsLost == m.arm.jointsLost
    && m'.arm.anchor == m.arm.anchor && m'.arm.lastCmd == m.arm.lastCmd
    && !m'.axlock && m'.lock == None && m'.home == m.home && m'.rec == m.rec && m'.keys == m.keys
  }

  /** The clutch takes: tracking counts as good, the hand is anchored at the target, no blending; nothing else moves. */
  ghost predicate Took(m: Mode, m': Mode) {
    && m'.arm.engaged && !m'.arm.poseLost && m'.arm.blend == 0 && m'.arm.anchor == m.arm.target
    && m'.arm.target == m.arm.target && m'.arm.ready == m.arm.ready && m'.arm.jointsLost == m.arm.jointsLost
    && m'.arm.lastCmd == m.arm.lastCmd
    && m'.axlock == m.axlock && m'.lock == m.lock && m'.home == m.home && m'.rec == m.rec && m'.keys == m.keys
  }

  /** The ramp is over, with the recording it was to stop; target and anchor are the present pose. */
  ghost predicate RampGone(c: Config, m: Mode, m': Mode, fk: Vec) {
    && !m'.home.active && m'.home.ramp == None && m'.home.scale == 1.0 && m'.home.floor == 0.0 && !m'.home.stopRec
    && m'.home.origin == m.home.origin
    && m'.rec.on == (m.rec.on && !(m.home.stopRec && c.hasRecorder))
    && m'.rec.mark == m.rec.mark && m'.rec.episode == m.rec.episode
    && m'.arm.target == Some(fk) && m'.arm.anchor == Some(fk) && m'.arm.blend == 0
    && m'.arm.engaged == m.arm.engaged && m'.arm.ready == m.arm.ready && m'.arm.poseLost == m.arm.poseLost
    && m'.arm.jointsLost == m.arm.jointsLost && m'.arm.lastCmd == m.arm.lastCmd
    && m'.axlock == m.axlock && m'.lock == m.lock && m'.keys == m.keys
  }

  /** A ramp starts on the route, from the last command if that is within the lead of the arm, else from the arm. */
  ghost predicate RampStarted(c: Config, m: Mode, m': Mode, stopRec: bool, s: Sense, start: Vec) {
    && s.route.Some?
    && (start == s.measured || m.arm.lastCmd == Some(start))
    && (m.arm.lastCmd.Some? && |m.arm.lastCmd.value| == |s.measured| ==>
          if Dist(m.arm.lastCmd.value, s.measured) <= c.lead then start == m.arm.lastCmd.value else start == s.measured)
    && |start| == |s.measured|
    && m'.home.active && m'.home.stopRec == stopRec
    && m'.home.ramp == Some(Ramp(s.route.value.wps, 0, start, None, None))
    && m'.home.scale == s.route.value.scale && m'.home.floor == s.route.value.floor
    && m'.home.origin.episode == m.rec.episode && m'.home.origin.measured == s.measured && m'.home.origin.start == start
  }

  /**
   What an attempt to start homing comes to, and whether a ramp started: refused outright it changes nothing;
   refused later it has dropped the clutch.
   */
  ghost predicate TriedHome(c: Config, m: Mode, m': Mode, stopRec: bool, s: Sense, started: bool) {
    if m.home.active || !m.arm.ready || !s.jointsFresh || (!stopRec && c.hasRecorder && m.rec.on) then
      !started && m' == m
    else
      && started == (s.inLimits && s.route.Some?)
      && (if started then RampStarted(c, m, m', stopRec, s, m'.home.origin.start) else m'.home == m.home)
      && if m.arm.engaged then Froze(m.(home := m'.home), m', s.fk, 0) else m' == m.(home := m'.home)
  }

  // ------------------------------------------------------------------------------- a button tick

  /** The pose: while engaged the target follows a tracked hand, re-anchored first if tracking had been lost. */
  ghost predicate PoseDone(m: Mode, i: VrInput, m': Mode) {
    && m'.home == m.home && m'.rec == m.rec && m'.keys == m.keys && m'.axlock == m.axlock && m'.lock == m.lock
    && m'.arm.engaged == m.arm.engaged && m'.arm.ready == m.arm.ready && m'.arm.jointsLost == m.arm.jointsLost
    && m'.arm.lastCmd == m.arm.lastCmd
    && if m.arm.ready && m.arm.engaged then
         && m'.arm.poseLost == !i.live
         && m'.arm.target == (if i.live then Some(i.newTarget) else m.arm.target)
         && m'.arm.anchor == (if i.live && m.arm.poseLost then m.arm.target else m.arm.anchor)
         && m'.arm.blend == m.arm.blend
       else m' == m
  }

  /** The clutch: too soon after the last press it is ignored; else it ends a ramp, or drops the clutch, or takes it. */
  ghost predicate PadDone(c: Config, m: Mode, i: VrInput, m': Mode) {
    && m'.keys.padWas == i.pad
    && var down, gap := i.pad && !m.keys.padWas, i.now - m.keys.padT;
       var takes := gap > c.padDebounce && m.arm.ready && i.live;
       var acts := down && gap >= c.padBounce && (m.home.active || m.arm.engaged || takes);
       var k := m.(keys := m.keys.(padWas := i.pad, padT := if acts then i.now else m.keys.padT));
       if !acts then m' == k
       else if m.home.active then RampGone(c, k, m', i.homeSense.fk)
       else if m.arm.engaged then Froze(k, m', i.homeSense.fk, if i.homeSense.jointsFresh then c.blendTicks else m.arm.blend)
       else Took(k, m')
  }

  /** MENU while recording: a ramp that will stop it, if one starts; else the recording stops and the arm freezes now. */
  ghost predicate MenuStops(c: Config, m: Mode, s: Sense, m': Mode) {
    var tried := c.homeOnStop && !m.home.active && m.arm.ready && s.jointsFresh;
    if tried && s.inLimits && s.route.Some? then TriedHome(c, m, m', true, s, true)
    else
      var off := m.(rec := m.rec.(on := false));
      if m.arm.engaged then Froze(off, m', s.fk, if tried then 0 else if s.jointsFresh then c.blendTicks else m.arm.blend)
      else m' == off
  }

  /**
   MENU otherwise: the clutch is taken if it is not and can be, and an episode starts; a recorder that refuses
   leaves the arm frozen, the hand anchored anew if the clutch had just been taken.
   */
  ghost predicate MenuRecords(c: Config, m: Mode, i: VrInput, m': Mode) {
    if m.arm.engaged then
      if i.recorderStarts then m' == m.(rec := Taping(true, m.rec.mark, m.rec.episode + 1))
      else Froze(m, m', i.menuSense.fk, if i.menuSense.jointsFresh then c.blendTicks else m.arm.blend)
    else if m.arm.ready && i.live then
      if i.recorderStarts then Took(m.(rec := Taping(true, m.rec.mark, m.rec.episode + 1)), m')
      else Froze(m.(arm := m.arm.(poseLost := false, anchor := m.arm.target)), m', i.menuSense.fk,
                 if i.menuSense.jointsFresh then c.blendTicks else 0)
    else m' == m
  }

  ghost predicate MenuDone(c: Config, m: Mode, i: VrInput, m': Mode) {
    var acts := i.menu && !m.keys.menuWas && i.now - m.keys.menuT > c.menuDebounce;
    var k := if acts then m.(keys := m.keys.(menuT := i.now)) else m;
    && m'.keys.menuWas == i.menu
    && var done := m'.(keys := m'.keys.(menuWas := m.keys.menuWas));
       if !acts then done == k
       else if !c.hasRecorder then done == k.(rec := k.rec.(mark := !m.rec.mark))
       else if m.rec.on then MenuStops(c, k, i.menuSense, done)
       else if m.home.active then done == k
       else MenuRecords(c, k, i, done)
  }

  ghost predicate HomeDone(c: Config, m: Mode, i: VrInput, m': Mode) {
    var acts := i.home && !m.keys.homeWas && i.now - m.keys.homeT > c.homeDebounce;
    var k := if acts then m.(keys := m.keys.(homeT := i.now)) else m;
    && m'.keys.homeWas == i.home
    && var done := m'.(keys := m'.keys.(homeWas := m.keys.homeWas));
       if !acts then done == k
       else if m.home.active then RampGone(c, k, done, i.homeSense.fk)
       else TriedHome(c, k, done, false, i.homeSense, done.home.active)
  }

  /** Unlocked: the hand is re-anchored at the target if it is engaged and tracked. */
  ghost predicate Unlocked(m: Mode, m': Mode, live: bool) {
    && !m'.axlock && m'.lock == None && m'.home == m.home && m'.rec == m.rec && m'.keys == m.keys
    && m'.arm == if m.arm.engaged && live then m.arm.(anchor := m.arm.target) else m.arm
  }

  /** The lock: a press toggles or sets it, and where it does not toggle, letting go drops it. */
  ghost predicate LockDone(c: Config, m: Mode, i: VrInput, m': Mode) {
    var held := c.axisLock && i.lock;
    var acts := held && !m.keys.lockWas && i.now - m.keys.lockT > c.lockDebounce;
    var k := m.(keys := m.keys.(lockWas := held, lockT := if acts then i.now else m.keys.lockT));
    if m.axlock then
      if (c.toggleLock && acts) || (!c.toggleLock && !held) then Unlocked(k, m', i.live) else m' == k
    else if acts && m.arm.engaged && !m.home.active && i.lockAxis.Some? then
      m' == k.(axlock := true, lock := Some(Lock(m.arm.target, i.lockAxis.value.0, i.lockAxis.value.1)))
    else m' == k
  }

  lemma PoseSays(m: Mode, i: VrInput)
    ensures PoseDone(m, i, PoseStage(m, i))
  {
  }

  lemma {:induction false} PadSays(c: Config, m: Mode, i: VrInput)
    requires ModeInv(c, m)
    ensures PadDone(c, m, i, PadStage(c, m, i))
  {
  }

  lemma {:induction false} StartHomeSays(c: Config, m: Mode, stopRec: bool, s: Sense)
    requires ModeInv(c, m)
    ensures var r := BridgeModes.StartHome(c, m, stopRec, s); TriedHome(c, m, r.0, stopRec, s, r.1)
  {
    hide Dist;
    DistZero(s.measured, s.measured);
  }

  lemma KeysKept(c: Config, m: Mode, stopRec: bool, s: Sense)
    ensures BridgeModes.StartHome(c, m, stopRec, s).0.keys == m.keys
  {
  }

  lemma StartedIsActive(c: Config, m: Mode, stopRec: bool, s: Sense)
    ensures var r := BridgeModes.StartHome(c, m, stopRec, s); !m.home.active ==> (r.1 <==> r.0.home.active)
  {
    hide RampStart;
  }

  lemma {:induction false} MenuSays(c: Config, m: Mode, i: VrInput)
    requires ModeInv(c, m)
    ensures MenuDone(c, m, i, MenuStage(c, m, i))
  {
    hide BridgeModes.StartHome, MenuStops, MenuRecords, MenuStop, MenuStart;
    var k := m.(keys := m.keys.(menuT := i.now));
    if MenuEdge(c, m.keys, i) && c.hasRecorder {
      MenuStopSays(c, k, i.menuSense);
      MenuStartSays(c, k, i);
      var done := MenuPress(c, k, i);
      assert done.keys == k.keys;
      assert MenuStage(c, m, i).(keys := MenuStage(c, m, i).keys.(menuWas := m.keys.menuWas)) == done;
    }
  }

  lemma {:induction false} MenuStopSays(c: Config, m: Mode, s: Sense)
    requires ModeInv(c, m)
    ensures MenuStops(c, m, s, MenuStop(c, m, s)) && MenuStop(c, m, s).keys == m.keys
  {
    hide RampStarted, RampStart;
    StartHomeSays(c, m, true, s);
  }

  lemma {:induction false} MenuStartSays(c: Config, m: Mode, i: VrInput)
    requires ModeInv(c, m)
    ensures MenuRecords(c, m, i, MenuStart(c, m, i)) && MenuStart(c, m, i).keys == m.keys
  {
  }

  lemma {:induction false} HomeSays(c: Config, m: Mode, i: VrInput)
    requires ModeInv(c, m)
    ensures HomeDone(c, m, i, HomeStage(c, m, i))
  {
    hide BridgeModes.StartHome, TriedHome;
    var k := m.(keys := m.keys.(homeT := i.now));
    if i.home && !m.keys.homeWas && i.now - m.keys.homeT > c.homeDebounce {
      StartHomeSays(c, k, false, i.homeSense);
      KeysKept(c, k, false, i.homeSense);
      StartedIsActive(c, k, false, i.homeSense);
      var done := HomePress(c, k, i.homeSense);
      assert done.keys == k.keys;
      assert HomeStage(c, m, i).(keys := HomeStage(c, m, i).keys.(homeWas := m.keys.homeWas)) == done;
    }
  }

  lemma {:induction false} LockSays(c: Config, m: Mode, i: VrInput)
    requires ModeInv(c, m)
    ensures LockDone(c, m, i, LockStage(c, m, i))
  {
  }

  /** A button tick is these five, in this order, each seeing what the ones before it did. */
  lemma {:induction false} VrSays(c: Config, m: Mode, i: VrInput) returns (m1: Mode, m2: Mode, m3: Mode, m4: Mode)
    requires c.Valid() && Inv(c, m) && EventOk(c, Vr(i))
    ensures PoseDone(m, i, m1) && PadDone(c, m1, i, m2) && MenuDone(c, m2, i, m3) && HomeDone(c, m3, i, m4)
    ensures LockDone(c, m4, i, Apply(c, m, Vr(i)))
  {
    hide RampInv, SenseOk, PoseStage, PadStage, MenuStage, HomeStage, LockStage, PoseDone, PadDone, MenuDone, HomeDone, LockDone, ModeInv;
    m1 := PoseStage(m, i);
    m2 := PadStage(c, m1, i);
    m3 := MenuStage(c, m2, i);
    m4 := HomeStage(c, m3, i);
    PosePadKeep(c, m, i);
    PosePadKeep(c, m1, i);
    MenuKeeps(c, m2, i);
    HomeButtonKeeps(c, m3, i);
    PoseSays(m, i);
    PadSays(c, m1, i);
    MenuSays(c, m2, i);
    HomeSays(c, m3, i);
    LockSays(c, m4, i);
  }

  // ------------------------------------------------------------------------------ a control tick

  /** Joint states that had been lost are back: the target is the present pose and the hand counts as lost if engaged. */
  ghost predicate Resynced(c: Config, m: Mode, fk: Vec, m': Mode) {
    && m'.home == m.home && m'.rec == m.rec && m'.keys == m.keys && m'.axlock == m.axlock && m'.lock == m.lock
    && !m'.arm.jointsLost && m'.arm.ready == m.arm.ready && m'.arm.engaged == m.arm.engaged
    && m'.arm.anchor == m.arm.anchor && m'.arm.lastCmd == m.arm.lastCmd
    && m'.arm.target == (if m.arm.jointsLost then Some(fk) else m.arm.target)
    && m'.arm.blend == (if m.arm.jointsLost then c.blendTicks else m.arm.blend)
    && (m'.arm.poseLost <==> m.arm.poseLost || (m.arm.jointsLost && m.arm.engaged))
  }

  /** Where the walk stands after a tick that sent cmd. */
  ghost predicate Walked(c: Config, r: Ramp, t: TickInput, step: real, cmd: Vec, r': Ramp)
    requires RampOk(r, |t.measured|)
  {
    var arrived, last := Dist(r.cur, r.wps[r.i]) <= step, r.i == |r.wps| - 1;
    var turns := arrived && !last && r.dwellT.Some? && t.now - r.dwellT.value >= c.dwell;
    && r'.wps == r.wps && r'.cur == cmd && r'.i == (if turns then r.i + 1 else r.i)
    && r'.dwellT == (if turns then None else if arrived && !last && r.dwellT.None? then Some(t.now) else r.dwellT)
    && r'.doneT == if arrived && last && r.doneT.None? then Some(t.now) else r.doneT
  }

  /**
   A tick while homing. A pose measured inside the gate, which is never armed above the cushion nor the floor the
   route was checked at, ends the ramp and sends nothing. Otherwise the command is one step further toward the
   waypoint, and the ramp ends exactly if that is the last one, reached, and the robot is there or has had its time.
   */
  ghost predicate HomingTicked(c: Config, m: Mode, t: TickInput, step: real, m': Mode)
    requires m.home.ramp.Some? && RampOk(m.home.ramp.value, |t.measured|)
  {
    if t.gateDue && c.p.margin(t.measured, Min(c.gateFrac, m.home.scale)) < m.home.floor then RampGone(c, m, m', t.fk)
    else
      var r := m.home.ramp.value;
      var waited := if r.doneT.Some? then t.now - r.doneT.value else 0.0;
      var over := Dist(r.cur, r.wps[r.i]) <= step && r.i == |r.wps| - 1
                  && (Dist(t.measured, r.wps[r.i]) < c.doneTol || waited > c.grace);
      exists cmd: Vec {:trigger OneStepOn(r.cur, r.wps[r.i], step, cmd)} ::
        && OneStepOn(r.cur, r.wps[r.i], step, cmd)
        && var sent := m.(arm := m.arm.(lastCmd := Some(cmd)));
           if over then RampGone(c, sent, m', t.fk)
           else m'.home.ramp.Some? && Walked(c, r, t, step, cmd, m'.home.ramp.value) && m' == sent.(home := m.home.(ramp := m'.home.ramp))
  }

  /** A tick while teleoperating: inside the gate, or stuck, the arm freezes and nothing is sent; else q is sent. */
  ghost predicate TeleopTicked(c: Config, m: Mode, t: TickInput, m': Mode) {
    if m.arm.engaged && ((t.gateDue && c.p.margin(t.measured, c.gateFrac) < 0.0) || t.stuck) then
      Froze(m, m', t.fk, c.blendTicks)
    else m' == m.(arm := m.arm.(lastCmd := Some(t.q), blend := if m.arm.blend > 0 then m.arm.blend - 1 else 0))
  }

  lemma {:induction false} HomeTickSays(c: Config, m: Mode, t: TickInput, step: real)
    requires m.home.ramp.Some? && RampOk(m.home.ramp.value, |t.measured|) && step == c.homeV * t.dt >= 0.0
    ensures TickStep(c, t) == step && HomingTicked(c, m, t, step, HomeTick(c, m, t))
  {
    hide OneStepOn, Dist, Steer;
    var r := m.home.ramp.value;
    assert TickStep(c, t) == step;
    SteerIsOneStep(step, r.cur, r.wps[r.i]);
    hide TickStep;
    var cmd := Steer(step, r.cur, r.wps[r.i]);
    assert OneStepOn(r.cur, r.wps[r.i], step, cmd);
  }

  lemma {:induction false} TeleopTickSays(c: Config, m: Mode, t: TickInput)
    requires ModeInv(c, m) && t.jointsFresh
    ensures TeleopTicked(c, m, t, TeleopTick(c, m, t))
  {
  }

  /** A control tick: nothing before the first joint state, only a note that they are stale, or a re-sync and then one of the two. */
  lemma {:induction false} ControlSays(c: Config, m: Mode, t: TickInput, step: real) returns (m1: Mode)
    requires c.Valid() && Inv(c, m) && EventOk(c, Control(t)) && step == c.homeV * t.dt
    ensures !m.arm.ready ==> Apply(c, m, Control(t)) == m
    ensures m.arm.ready && !t.jointsFresh ==> Apply(c, m, Control(t)) == m.(arm := m.arm.(jointsLost := true))
    ensures m.arm.ready && t.jointsFresh ==>
              && Resynced(c, m, t.fk, m1)
              && (m1.home.active ==> m1.home.ramp.Some? && RampOk(m1.home.ramp.value, |t.measured|)
                                     && HomingTicked(c, m1, t, step, Apply(c, m, Control(t))))
              && (!m1.home.active ==> TeleopTicked(c, m1, t, Apply(c, m, Control(t))))
  {
    hide RouteOk, OnLeg, Dist, RampOk, HomeTick, TeleopTick, HomingTicked, TeleopTicked;
    NonNegative(c.homeV, t.dt);
    m1 := m.(arm := Resync(c, m.arm, t.fk));
    if m.arm.ready && t.jointsFresh {
      if m1.home.active {
        HomeTickSays(c, m1, t, step);
      } else {
        TeleopTickSays(c, m1, t);
      }
    }
  }

  /**
   In every run: a homing tick that finds the measured pose inside the gate ends the ramp and sends nothing, and
   any other ends it exactly on the last waypoint, with the robot within the tolerance or the grace over.
   */
  lemma {:induction false} TickEndsRamp(c: Config, es: seq<Event>, k: nat)
    requires RunOk(c, es) && k < |es| && es[k].Control?
    requires Reached(c, es, k).home.active && es[k].tick.jointsFresh
    ensures var m, m', t := Reached(c, es, k), Reached(c, es, k + 1), es[k].tick;
            && m.home.ramp.Some? && RampOk(m.home.ramp.value, |t.measured|)
            && var r := m.home.ramp.value;
               var gate := t.gateDue && c.p.margin(t.measured, Min(c.gateFrac, m.home.scale)) < m.home.floor;
               && (gate ==> !m'.home.active && m'.arm.lastCmd == m.arm.lastCmd)
               && (!gate ==>
                     (!m'.home.active <==>
                        && r.i == |r.wps| - 1 && Dist(r.cur, r.wps[r.i]) <= c.homeV * t.dt
                        && (Dist(t.measured, r.wps[r.i]) < c.doneTol || (if r.doneT.Some? then t.now - r.doneT.value else 0.0) > c.grace)))
  {
    hide RampOk, Dist, Inv, Apply;
    assert EventOk(c, es[k]);
    HomingTickEnds(c, Reached(c, es, k), es[k].tick);
  }

  lemma {:induction false} HomingTickEnds(c: Config, m: Mode, t: TickInput)
    requires c.Valid() && Inv(c, m) && EventOk(c, Control(t)) && m.home.active && t.jointsFresh
    ensures var m' := Apply(c, m, Control(t));
            && m.home.ramp.Some? && RampOk(m.home.ramp.value, |t.measured|)
            && var r := m.home.ramp.value;
               var gate := t.gateDue && c.p.margin(t.measured, Min(c.gateFrac, m.home.scale)) < m.home.floor;
               && (gate ==> !m'.home.active && m'.arm.lastCmd == m.arm.lastCmd)
               && (!gate ==>
                     (!m'.home.active <==>
                        && r.i == |r.wps| - 1 && Dist(r.cur, r.wps[r.i]) <= c.homeV * t.dt
                        && (Dist(t.measured, r.wps[r.i]) < c.doneTol || (if r.doneT.Some? then t.now - r.doneT.value else 0.0) > c.grace)))
  {
    hide RampOk, Dist, OneStepOn, Walked, RouteOk, OnLeg, Apply;
    var m1 := ControlSays(c, m, t, c.homeV * t.dt);
  }

  /** The first joint state makes the bridge ready, frozen, with target and anchor on the present pose; later ones change nothing. */
  lemma JointsSay(c: Config, m: Mode, fk: Vec)
    requires c.Valid() && Inv(c, m)
    ensures var m' := Apply(c, m, Joints(fk));
            if m.arm.ready then m' == m
            else
              && m'.arm.ready && !m'.arm.engaged && m'.arm.target == Some(fk) && m'.arm.anchor == Some(fk)
              && m' == m.(arm := m.arm.(ready := true, target := Some(fk), anchor := Some(fk)))
  {
    hide RampInv;
  }
}
