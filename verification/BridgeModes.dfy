// The teleop bridge's modes: clutch, MENU (episodes), HOME ramp and axis lock, as functions on a record of
// its mode fields. The class in Bridge.dfy updates those fields in place.
module BridgeModes {
  import opened Options
  import opened JointSpace
  import opened Paths
  import opened HomeRamp

  datatype Config = Config(
    p: Planner, homeQ: Vec, lead: real, homeV: real, dwell: real, doneTol: real, grace: real, gateFrac: real,
    blendTicks: nat, padBounce: real, padDebounce: real, menuDebounce: real, homeDebounce: real, lockDebounce: real,
    homeOnStop: bool, axisLock: bool, toggleLock: bool, hasRecorder: bool)
  {
    ghost predicate Valid() {
      p.Valid() && |homeQ| == p.dim && homeV >= 0.0 && lead >= 0.0
    }
  }

  datatype Lock = Lock(p0: Option<Vec>, u: Vec, rot: Vec)

  /** What a ramp was started for and from: the episode count, the measured pose, the first command. */
  datatype Origin = Origin(episode: nat, measured: Vec, start: Vec)

  /** The clutch side: readiness, engagement, dropouts, the hand target and its anchor, the last joint command. */
  datatype Arm = Arm(
    ready: bool, engaged: bool, poseLost: bool, jointsLost: bool, blend: nat,
    target: Option<Vec>, anchor: Option<Vec>, lastCmd: Option<Vec>)

  datatype Homing = Homing(active: bool, ramp: Option<Ramp>, scale: real, floor: real, stopRec: bool, origin: Origin)

  /** The recorder as the bridge sees it; `episode` counts the episodes started. */
  datatype Taping = Taping(on: bool, mark: bool, episode: nat)

  /** Each button's last level, and the time its last press was acted on. */
  datatype Buttons = Buttons(
    padWas: bool, menuWas: bool, homeWas: bool, lockWas: bool, padT: real, menuT: real, homeT: real, lockT: real)

  datatype Mode = Mode(arm: Arm, home: Homing, axlock: bool, lock: Option<Lock>, rec: Taping, keys: Buttons)

  /** A route home: waypoints, the cushion scale it was checked at, the margin it was checked against. */
  datatype HomeRoute = HomeRoute(wps: seq<Vec>, scale: real, floor: real)

  /** What an attempt to start homing meets: joint freshness, limits, the measured pose, the route if any. */
  datatype Sense = Sense(jointsFresh: bool, inLimits: bool, route: Option<HomeRoute>, measured: Vec, fk: Vec)

  /** One vr_tick: the clock, pose freshness, the mapped target, the buttons, and what its actions meet. */
  datatype VrInput = VrInput(
    now: real, live: bool, newTarget: Vec, pad: bool, menu: bool, home: bool, lock: bool,
    menuSense: Sense, homeSense: Sense, recorderStarts: bool, lockAxis: Option<(Vec, Vec)>)

  /** One control tick. gateDue: the measured-pose gate is on and due; stuck: the robot is not following. */
  datatype TickInput = TickInput(
    now: real, dt: real, jointsFresh: bool, gateDue: bool, stuck: bool, q: Vec, measured: Vec, fk: Vec)

  // -------------------------------------------------------------------------- the actions

  function ClearLock(m: Mode): Mode {
    if m.axlock then m.(axlock := false, lock := None) else m
  }

  /** _capture_refs: anchor the mapping at the current target. */
  function CaptureRefs(a: Arm): Arm {
    a.(anchor := a.target)
  }

  function Engage(m: Mode): Mode {
    m.(arm := CaptureRefs(m.arm.(engaged := true, poseLost := false, blend := 0)))
  }

  /** _on_disengage: freeze, drop the lock, park the target on the present pose. */
  function Disengage(c: Config, m: Mode, jointsFresh: bool, fk: Vec): Mode {
    ClearLock(m).(arm := m.arm.(engaged := false, blend := if jointsFresh then c.blendTicks else m.arm.blend, target := Some(fk)))
  }

  /** The pose a ramp starts from: the last command if it is within the lead of the measured pose. */
  function RampStart(c: Config, lastCmd: Option<Vec>, measured: Vec): Vec {
    if lastCmd.Some? && |lastCmd.value| == |measured| && Dist(lastCmd.value, measured) <= c.lead
    then lastCmd.value else measured
  }

  function BeginRamp(c: Config, m: Mode, stopRec: bool, route: HomeRoute, measured: Vec): Mode {
    var start := RampStart(c, m.arm.lastCmd, measured);
    m.(home := Homing(true, Some(Ramp(route.wps, 0, start, None, None)), route.scale, route.floor, stopRec,
                      Origin(m.rec.episode, measured, start)))
  }

  /** Refused before anything changes: already homing, not ready, or an episode is running. */
  predicate HomeIgnored(c: Config, m: Mode, stopRec: bool, s: Sense) {
    m.home.active || !m.arm.ready || !s.jointsFresh || (!stopRec && c.hasRecorder && m.rec.on)
  }

  /** The freeze that precedes a ramp. */
  function Freeze(c: Config, m: Mode, s: Sense): Mode {
    if m.arm.engaged then
      var m1 := Disengage(c, m, s.jointsFresh, s.fk);
      m1.(arm := m1.arm.(blend := 0))
    else m
  }

  /** _start_home: the new mode and whether a ramp started. A refusal after the freeze leaves the arm frozen. */
  function StartHome(c: Config, m: Mode, stopRec: bool, s: Sense): (Mode, bool) {
    if HomeIgnored(c, m, stopRec, s) then (m, false)
    else if s.inLimits && s.route.Some? then (BeginRamp(c, Freeze(c, m, s), stopRec, s.route.value, s.measured), true)
    else (Freeze(c, m, s), false)
  }

  /** _end_home: a ramp that was asked to stop the recording stops it, however it ends. */
  function EndHome(c: Config, m: Mode, fk: Vec): Mode {
    m.(home := Homing(false, None, 1.0, 0.0, false, m.home.origin),
       rec := m.rec.(on := m.rec.on && !(m.home.stopRec && c.hasRecorder)),
       arm := m.arm.(blend := 0, target := Some(fk), anchor := Some(fk)))
  }

  /** The homing gate is never armed above the cushion, nor the floor, that the route was checked at. */
  predicate HomeGate(c: Config, h: Homing, input: TickInput) {
    input.gateDue && c.p.margin(input.measured, Min(c.gateFrac, h.scale)) < h.floor
  }

  predicate TeleopGate(c: Config, input: TickInput) {
    input.gateDue && c.p.margin(input.measured, c.gateFrac) < 0.0
  }

  /** How far the command may move in one tick. */
  function TickStep(c: Config, input: TickInput): real {
    c.homeV * input.dt
  }

  /** The walk of one tick along the ramp. */
  function HomeWalk(c: Config, r: Ramp, input: TickInput): Ramp
    requires RampOk(r, |input.measured|) && TickStep(c, input) >= 0.0
  {
    Walk(r, TickStep(c, input), input.now, c.dwell)
  }

  /** On the last waypoint: over when the robot is there too, or has had long enough to settle. */
  predicate RampOver(c: Config, r: Ramp, r': Ramp, input: TickInput)
    requires RampOk(r, |input.measured|)
  {
    && !Moving(r, TickStep(c, input)) && r.i == |r.wps| - 1
    && (Dist(input.measured, r.wps[r.i]) < c.doneTol || (r'.doneT.Some? && input.now - r'.doneT.value > c.grace))
  }

  /** _home_tick. */
  function HomeTick(c: Config, m: Mode, input: TickInput): Mode
    requires m.home.ramp.Some? && RampOk(m.home.ramp.value, |input.measured|) && TickStep(c, input) >= 0.0
  {
    if HomeGate(c, m.home, input) then EndHome(c, m, input.fk)
    else
      var r := m.home.ramp.value;
      var r' := HomeWalk(c, r, input);
      var m' := m.(home := m.home.(ramp := Some(r')), arm := m.arm.(lastCmd := Some(r'.cur)));
      if RampOver(c, r, r', input) then EndHome(c, m', input.fk) else m'
  }

  // ------------------------------------------------------------------------------ vr_tick

  /** The pose part: move the target while the hand is tracked, re-anchor when it comes back. */
  function PoseStage(m: Mode, input: VrInput): Mode {
    if !(m.arm.ready && m.arm.engaged) then m
    else if !input.live then m.(arm := m.arm.(poseLost := true))
    else
      var a := if m.arm.poseLost then CaptureRefs(m.arm.(poseLost := false)) else m.arm;
      m.(arm := a.(target := Some(input.newTarget)))
  }

  function PadPress(c: Config, m: Mode, input: VrInput): Mode {
    var acted := m.(keys := m.keys.(padT := input.now));
    if input.now - m.keys.padT < c.padBounce then m
    else if m.home.active then EndHome(c, acted, input.homeSense.fk)
    else if m.arm.engaged then Disengage(c, acted, input.homeSense.jointsFresh, input.homeSense.fk)
    else if input.now - m.keys.padT > c.padDebounce && m.arm.ready && input.live then Engage(acted)
    else m
  }

  function PadStage(c: Config, m: Mode, input: VrInput): Mode {
    var m' := if input.pad && !m.keys.padWas then PadPress(c, m, input) else m;
    m'.(keys := m'.keys.(padWas := input.pad))
  }

  function StopTape(m: Mode): Mode {
    m.(rec := m.rec.(on := false))
  }

  /** MENU while an episode runs: home, and stop at the end of the ramp, if configured; else stop and freeze now. */
  function MenuStop(c: Config, m: Mode, s: Sense): Mode {
    var tried := if c.homeOnStop then StartHome(c, m, true, s) else (m, false);
    if tried.1 then tried.0
    else if tried.0.arm.engaged then Disengage(c, StopTape(tried.0), s.jointsFresh, s.fk)
    else StopTape(tried.0)
  }

  /** MENU otherwise: engage if need be and start an episode; a recorder that refuses freezes the arm. */
  function MenuStart(c: Config, m: Mode, input: VrInput): Mode {
    var m1 := if !m.arm.engaged && m.arm.ready && input.live then Engage(m) else m;
    if !m1.arm.engaged then m1
    else if input.recorderStarts then m1.(rec := Taping(true, m1.rec.mark, m1.rec.episode + 1))
    else Disengage(c, m1, input.menuSense.jointsFresh, input.menuSense.fk)
  }

  function MenuPress(c: Config, m: Mode, input: VrInput): Mode {
    if !c.hasRecorder then m.(rec := m.rec.(mark := !m.rec.mark))
    else if m.rec.on then MenuStop(c, m, input.menuSense)
    else if m.home.active then m
    else MenuStart(c, m, input)
  }

  predicate MenuEdge(c: Config, k: Buttons, input: VrInput) {
    input.menu && !k.menuWas && input.now - k.menuT > c.menuDebounce
  }

  function MenuStage(c: Config, m: Mode, input: VrInput): Mode {
    var m' := if MenuEdge(c, m.keys, input) then MenuPress(c, m.(keys := m.keys.(menuT := input.now)), input) else m;
    m'.(keys := m'.keys.(menuWas := input.menu))
  }

  function HomePress(c: Config, m: Mode, s: Sense): Mode {
    if m.home.active then EndHome(c, m, s.fk) else StartHome(c, m, false, s).0
  }

  function HomeStage(c: Config, m: Mode, input: VrInput): Mode {
    var m' := if input.home && !m.keys.homeWas && input.now - m.keys.homeT > c.homeDebounce
              then HomePress(c, m.(keys := m.keys.(homeT := input.now)), input.homeSense) else m;
    m'.(keys := m'.keys.(homeWas := input.home))
  }

  /** Lock the target to a line, unless the axis is degenerate. */
  function LockEngage(m: Mode, axis: Option<(Vec, Vec)>): Mode {
    if axis.None? then m else m.(axlock := true, lock := Some(Lock(m.arm.target, axis.value.0, axis.value.1)))
  }

  /** Release the lock, re-anchoring so that motion made while locked is not replayed. */
  function LockRelease(m: Mode, live: bool): Mode {
    if !m.axlock then m
    else if m.arm.engaged && live then ClearLock(m).(arm := CaptureRefs(m.arm))
    else ClearLock(m)
  }

  function LockPress(c: Config, m: Mode, input: VrInput): Mode {
    if m.axlock then (if c.toggleLock then LockRelease(m, input.live) else m)
    else if m.home.active || !m.arm.engaged then m
    else LockEngage(m, input.lockAxis)
  }

  function LockStage(c: Config, m: Mode, input: VrInput): Mode {
    var lock := c.axisLock && input.lock;
    var m1 := if lock && !m.keys.lockWas && input.now - m.keys.lockT > c.lockDebounce
              then LockPress(c, m.(keys := m.keys.(lockT := input.now)), input) else m;
    var m2 := if m1.axlock && !c.toggleLock && !lock then LockRelease(m1, input.live) else m1;
    m2.(keys := m2.keys.(lockWas := lock))
  }

  function VrTick(c: Config, m: Mode, input: VrInput): Mode {
    LockStage(c, HomeStage(c, MenuStage(c, PadStage(c, PoseStage(m, input), input), input), input), input)
  }

  // ------------------------------------------------------------------- the control tick

  /** Joint states came back: re-sync, and treat the hand as lost until it is re-anchored. */
  function Resync(c: Config, a: Arm, fk: Vec): Arm {
    if a.jointsLost then
      a.(jointsLost := false, blend := c.blendTicks, target := Some(fk), poseLost := a.poseLost || a.engaged)
    else a
  }

  function TeleopTick(c: Config, m: Mode, input: TickInput): Mode {
    if m.arm.engaged && (TeleopGate(c, input) || input.stuck) then Disengage(c, m, input.jointsFresh, input.fk)
    else m.(arm := m.arm.(blend := if m.arm.blend > 0 then m.arm.blend - 1 else 0, lastCmd := Some(input.q)))
  }

  ghost predicate CanTick(c: Config, m: Mode, input: TickInput) {
    && TickStep(c, input) >= 0.0
    && (m.home.active ==> m.home.ramp.Some? && RampOk(m.home.ramp.value, |input.measured|))
  }

  function ControlTick(c: Config, m: Mode, input: TickInput): Mode
    requires CanTick(c, m, input)
  {
    if !m.arm.ready then m
    else if !input.jointsFresh then m.(arm := m.arm.(jointsLost := true))
    else
      var m1 := m.(arm := Resync(c, m.arm, input.fk));
      if m1.home.active then HomeTick(c, m1, input) else TeleopTick(c, m1, input)
  }

  /** The first complete joint state: teleop may start, frozen. */
  function JointsReady(m: Mode, fk: Vec): Mode {
    if m.arm.ready then m
    else m.(arm := m.arm.(ready := true, engaged := false, target := Some(fk), anchor := Some(fk)))
  }
}
