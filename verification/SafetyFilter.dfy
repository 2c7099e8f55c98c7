// The terminal safety filter: per control cycle, accept the reference or hold the last accepted command.
module SafetyFilter {
  import opened Options
  import opened JointSpace

  // ----------------------------------------------------------------------- configuration

  /** A joint of the robot model: where its coordinates start and how many it has. */
  datatype Joint = Joint(idxQ: nat, idxV: nat, nq: nat, nv: nat)

  /** The robot model: joints by name, the neutral pose, and the velocity index of each one-coordinate joint. */
  datatype Model = Model(joints: map<string, Joint>, neutral: Vec, nv: nat, velOf: map<nat, nat>)

  predicate Simple(j: Joint) {
    j.nq == 1 && j.nv == 1
  }

  /** What the kinematics library guarantees of its models: joints do not share coordinates. */
  ghost predicate ModelOk(m: Model) {
    && (forall s | s in m.joints && Simple(m.joints[s]) ::
          && m.joints[s].idxQ < |m.neutral| && m.joints[s].idxV < m.nv
          && m.joints[s].idxQ in m.velOf && m.velOf[m.joints[s].idxQ] == m.joints[s].idxV)
    && (forall s, t | s in m.joints && t in m.joints && Simple(m.joints[s]) && Simple(m.joints[t]) && s != t ::
          m.joints[s].idxQ != m.joints[t].idxQ)
    && (forall i | i in m.velOf :: m.velOf[i] < m.nv)
    && (forall i, j | i in m.velOf && j in m.velOf && m.velOf[i] == m.velOf[j] :: i == j)
  }

  predicate Resolvable(m: Model, names: seq<string>) {
    forall i | 0 <= i < |names| :: names[i] in m.joints && Simple(m.joints[names[i]])
  }

  predicate NoDuplicates<T(==)>(xs: seq<T>) {
    forall i, j | 0 <= i < j < |xs| :: xs[i] != xs[j]
  }

  /** resolve_joints: look every name up, refusing unknown and multi-coordinate joints. */
  method ResolveJoints(m: Model, names: seq<string>) returns (ok: bool, idxQ: seq<nat>, idxV: seq<nat>)
    ensures ok <==> Resolvable(m, names)
    ensures ok <==> forall s | s in names :: s in m.joints && m.joints[s].nq == 1 && m.joints[s].nv == 1
    ensures ok ==> && |idxQ| == |idxV| == |names|
                   && forall i | 0 <= i < |names| :: idxQ[i] == m.joints[names[i]].idxQ && idxV[i] == m.joints[names[i]].idxV
  {
    idxQ, idxV := [], [];
    var i := 0;
    while i < |names|
      invariant 0 <= i <= |names| && |idxQ| == |idxV| == i
      invariant forall k | 0 <= k < i ::
                  && names[k] in m.joints && Simple(m.joints[names[k]])
                  && idxQ[k] == m.joints[names[k]].idxQ && idxV[k] == m.joints[names[k]].idxV
    {
      if names[i] !in m.joints || !Simple(m.joints[names[i]]) {
        return false, idxQ, idxV;
      }
      idxQ, idxV := idxQ + [m.joints[names[i]].idxQ], idxV + [m.joints[names[i]].idxV];
      i := i + 1;
    }
    ok := true;
  }

  /** The std::set scan for a name listed twice. */
  method FindDuplicate(names: seq<string>) returns (dup: bool)
    ensures dup <==> !NoDuplicates(names)
  {
    var seen: set<string> := {};
    var i := 0;
    while i < |names|
      invariant 0 <= i <= |names|
      invariant seen == set k | 0 <= k < i :: names[k]
      invariant forall k, l | 0 <= k < l < i :: names[k] != names[l]
    {
      if names[i] in seen {
        return true;
      }
      seen := seen + {names[i]};
      i := i + 1;
    }
    dup := false;
  }

  /** What on_configure works out from the parameters and the model. */
  datatype Tables = Tables(
    model: Model, collides: Vec -> bool, cmdIdxQ: seq<nat>, cmdIdxV: seq<nat>, stateIdxQ: seq<nat>,
    maxDelta: Vec, horizon: int, period: real)
  {
    const n: nat := |cmdIdxQ|

    /** Commanded joints come first in the state list, and no two joints share a coordinate. */
    ghost predicate Valid() {
      && ModelOk(model)
      && n > 0 && |cmdIdxV| == |maxDelta| == n <= |stateIdxQ|
      && stateIdxQ[..n] == cmdIdxQ
      && (forall i | 0 <= i < |stateIdxQ| :: stateIdxQ[i] < |model.neutral|)
      && NoDuplicates(stateIdxQ)
      && (forall i | 0 <= i < n :: cmdIdxQ[i] in model.velOf && model.velOf[cmdIdxQ[i]] == cmdIdxV[i])
    }
  }

  /** The joint tables of on_configure; None stands for CallbackReturn::ERROR. */
  method Configure(
    m: Model, collides: Vec -> bool, active: seq<string>, passive: seq<string>, maxDelta: seq<real>,
    horizon: int, period: real)
    returns (t: Option<Tables>)
    requires ModelOk(m)
    ensures t.Some? <==>
              && active != [] && (forall s | s in active + passive :: s in m.joints && m.joints[s].nq == 1 && m.joints[s].nv == 1)
              && forall i, j | 0 <= i < j < |active + passive| :: (active + passive)[i] != (active + passive)[j]
    ensures t.Some? ==>
              && t.value.Valid() && t.value.n == |active| && |t.value.stateIdxQ| == |active| + |passive|
              && t.value.model == m && t.value.collides == collides && t.value.horizon == horizon && t.value.period == period
              && t.value.maxDelta == (if |maxDelta| == |active| then maxDelta else seq(|active|, _ => 0.05))
              && forall i | 0 <= i < |active| + |passive| :: t.value.stateIdxQ[i] == m.joints[(active + passive)[i]].idxQ
  {
    if active == [] {
      return None;
    }
    var limits := if |maxDelta| == |active| then maxDelta else seq(|active|, _ => 0.05);
    var ok, cmdQ, cmdV := ResolveJoints(m, active);
    var names := active + passive;
    assert Resolvable(m, names) ==> Resolvable(m, active) by {
      assert forall i | 0 <= i < |active| :: active[i] == names[i];
    }
    if !ok {
      return None;
    }
    var dup := FindDuplicate(names);
    if dup {
      return None;
    }
    var ok2, stateQ, stateV := ResolveJoints(m, names);
    if !ok2 {
      return None;
    }
    assert stateQ[..|active|] == cmdQ by {
      assert forall i | 0 <= i < |active| :: active[i] == names[i];
    }
    assert NoDuplicates(stateQ);
    t := Some(Tables(m, collides, cmdQ, cmdV, stateQ, limits, horizon, period));
  }

  // ------------------------------------------------------------------- one control cycle

  /** Write vals into base at the given indices, in order. */
  function Scatter(base: Vec, idx: seq<nat>, vals: seq<real>): (q: Vec)
    requires |idx| == |vals| && forall i | 0 <= i < |idx| :: idx[i] < |base|
    ensures |q| == |base|
  {
    if idx == [] then base
    else Scatter(base, idx[..|idx| - 1], vals[..|idx| - 1])[idx[|idx| - 1] := vals[|idx| - 1]]
  }

  /** Without aliasing every write survives and nothing else changes. */
  lemma {:induction false} ScatterAt(base: Vec, idx: seq<nat>, vals: seq<real>)
    requires |idx| == |vals| && (forall i | 0 <= i < |idx| :: idx[i] < |base|) && NoDuplicates(idx)
    ensures forall i | 0 <= i < |idx| :: Scatter(base, idx, vals)[idx[i]] == vals[i]
    ensures forall c | 0 <= c < |base| && c !in idx :: Scatter(base, idx, vals)[c] == base[c]
  {
    if idx != [] {
      var k := |idx| - 1;
      var js, vs, q := idx[..k], vals[..k], Scatter(base, idx[..k], vals[..k]);
      ScatterAt(base, js, vs);
      forall i | 0 <= i < k ensures q[idx[i]] == vals[i] && idx[i] != idx[k] {
        assert q[js[i]] == vs[i];
      }
    }
  }

  /** One reading: position and velocity of every state joint, interleaved. */
  datatype Input = Input(sensors: seq<real>, msg: Option<seq<Option<real>>>, dt: real)

  ghost predicate InputOk(t: Tables, input: Input) {
    |input.sensors| == 2 * |t.stateIdxQ|
  }

  function Positions(sensors: seq<real>, n: nat): (ps: seq<real>)
    requires |sensors| == 2 * n
    ensures |ps| == n
  {
    seq(n, i requires 0 <= i < n => sensors[2 * i])
  }

  /** read_current_state: the neutral pose overwritten with every measured position. */
  function Pose(t: Tables, input: Input): (q: Vec)
    requires t.Valid() && InputOk(t, input)
    ensures |q| == |t.model.neutral|
  {
    Scatter(t.model.neutral, t.stateIdxQ, Positions(input.sensors, |t.stateIdxQ|))
  }

  /** The measured positions of the commanded joints. */
  function Measured(t: Tables, q: Vec): (m: Vec)
    requires t.Valid() && |q| == |t.model.neutral|
    ensures |m| == t.n
  {
    seq(t.n, i requires 0 <= i < t.n => assert t.stateIdxQ[..t.n][i] == t.cmdIdxQ[i]; q[t.cmdIdxQ[i]])
  }

  const EPSILON: real := 0.000001

  /** The reference a message asks of one joint: its value, or the measured position for NaN. */
  function Reference(entry: Option<real>, measured: real): real {
    if entry.Some? then entry.value else measured
  }

  /** The command after a message: only entries that moved more than the epsilon are replaced. */
  function Follow(cmd: Vec, measured: Vec, msg: Option<seq<Option<real>>>): (c: Vec)
    requires |cmd| == |measured|
    ensures |c| == |cmd|
  {
    if msg.Some? && |msg.value| == |cmd| then
      seq(|cmd|, i requires 0 <= i < |cmd| =>
        var r := Reference(msg.value[i], measured[i]); if Abs(r - cmd[i]) > EPSILON then r else cmd[i])
    else cmd
  }

  predicate WithinDelta(t: Tables, from: Vec, to: Vec)
    requires |from| == |to| == |t.maxDelta|
  {
    forall i | 0 <= i < |from| :: Abs(to[i] - from[i]) <= t.maxDelta[i]
  }

  /** The pose k commanded steps ahead: commanded joints extrapolated, the others frozen. */
  function Ahead(t: Tables, q: Vec, c: Vec, k: int): (p: Vec)
    requires t.Valid() && |q| == |t.model.neutral| && |c| == t.n
    ensures |p| == |q|
  {
    Scatter(q, t.cmdIdxQ, AheadValues(t, q, c, k))
  }

  function AheadValues(t: Tables, q: Vec, c: Vec, k: int): (vs: Vec)
    requires t.Valid() && |q| == |t.model.neutral| && |c| == t.n
    ensures |vs| == t.n
  {
    var m := Measured(t, q);
    seq(t.n, i requires 0 <= i < t.n => m[i] + k as real * (c[i] - m[i]))
  }

  /** No collision at any of the horizon steps, the first of which is the command itself. */
  ghost predicate HorizonClear(t: Tables, q: Vec, c: Vec)
    requires t.Valid() && |q| == |t.model.neutral| && |c| == t.n
  {
    forall k | 1 <= k <= t.horizon :: !t.collides(Ahead(t, q, c, k))
  }

  datatype State = State(cmd: Vec, lastSafe: Vec, has: bool)

  ghost predicate StateOk(t: Tables, s: State) {
    |s.cmd| == |s.lastSafe| == t.n
  }

  ghost predicate Accepts(t: Tables, s: State, input: Input)
    requires t.Valid() && StateOk(t, s) && InputOk(t, input)
  {
    var q := Pose(t, input);
    var c := Follow(s.cmd, Measured(t, q), input.msg);
    s.has && WithinDelta(t, s.lastSafe, c) && HorizonClear(t, q, c)
  }

  /** One update(): the written vector is the new state's cmd. The period does not enter. */
  ghost function Cycle(t: Tables, s: State, input: Input): (s': State)
    requires t.Valid() && StateOk(t, s) && InputOk(t, input)
    ensures StateOk(t, s')
  {
    var q := Pose(t, input);
    var c := Follow(s.cmd, Measured(t, q), input.msg);
    if Accepts(t, s, input) then State(c, c, true)
    else State(if s.has then s.lastSafe else Measured(t, q), s.lastSafe, s.has)
  }

  // ---------------------------------------------------------------------- the controller

  /** The library's integrate, for velocities that are zero on every joint with more than one coordinate. */
  function Integrate(m: Model, q: Vec, dv: Vec): (q': Vec)
    requires |q| == |m.neutral| && |dv| == m.nv && forall i | i in m.velOf :: m.velOf[i] < m.nv
    ensures |q'| == |q|
  {
    seq(|q|, i requires 0 <= i < |q| => if i in m.velOf then q[i] + dv[m.velOf[i]] else q[i])
  }

  /** Copy a vector into a buffer of the same size. */
  method CopyInto(dst: array<real>, src: seq<real>)
    requires dst.Length == |src|
    modifies dst
    ensures dst[..] == src
  {
    var i := 0;
    while i < dst.Length
      invariant 0 <= i <= dst.Length
      invariant dst[..i] == src[..i]
    {
      dst[i] := src[i];
      assert dst[..i + 1] == dst[..i] + [src[i]];
      i := i + 1;
    }
    assert dst[..] == dst[..dst.Length];
  }

  class Controller {
    const t: Tables
    const qCurrent: array<real>
    const qCmd: array<real>
    const lastSafe: array<real>
    const qPin: array<real>
    const vPin: array<real>
    var has: bool

    ghost predicate Valid() {
      && t.Valid()
      && qCurrent.Length == qCmd.Length == lastSafe.Length == t.n
      && qPin.Length == |t.model.neutral| && vPin.Length == t.model.nv
      && qCurrent != qCmd && qCurrent != lastSafe && qCurrent != qPin && qCurrent != vPin
      && qCmd != lastSafe && qCmd != qPin && qCmd != vPin
      && lastSafe != qPin && lastSafe != vPin && qPin != vPin
    }

    ghost function View(): (s: State)
      reads this`has, qCmd, lastSafe
    {
      State(qCmd[..], lastSafe[..], has)
    }

    /** The buffers on_configure allocates. */
    constructor (t: Tables)
      requires t.Valid()
      ensures Valid() && this.t == t && !has
      ensures fresh(qCurrent) && fresh(qCmd) && fresh(lastSafe) && fresh(qPin) && fresh(vPin)
      ensures qCmd[..] == lastSafe[..] == seq(t.n, _ => 0.0)
    {
      this.t := t;
      qCurrent := new real[t.n](_ => 0.0);
      qCmd := new real[t.n](_ => 0.0);
      lastSafe := new real[t.n](_ => 0.0);
      qPin := new real[|t.model.neutral|](i requires 0 <= i < |t.model.neutral| => t.model.neutral[i]);
      vPin := new real[t.model.nv](_ => 0.0);
      has := false;
    }

    /** Rebuild the full measured pose, then pick out the commanded joints. */
    method ReadCurrentState(input: Input)
      requires Valid() && InputOk(t, input)
      modifies qPin, qCurrent
      ensures qPin[..] == Pose(t, input)
      ensures qCurrent[..] == Measured(t, Pose(t, input))
    {
      CopyInto(qPin, t.model.neutral);
      ghost var ps := Positions(input.sensors, |t.stateIdxQ|);
      var i := 0;
      while i < |t.stateIdxQ|
        invariant 0 <= i <= |t.stateIdxQ|
        invariant qPin[..] == Scatter(t.model.neutral, t.stateIdxQ[..i], ps[..i])
      {
        qPin[t.stateIdxQ[i]] := input.sensors[2 * i];
        assert t.stateIdxQ[..i + 1][..i] == t.stateIdxQ[..i] && ps[..i + 1][..i] == ps[..i];
        i := i + 1;
      }
      assert t.stateIdxQ[..i] == t.stateIdxQ && ps[..i] == ps;
      ReadCommanded(Pose(t, input));
    }

    method ReadCommanded(ghost q: Vec)
      requires Valid() && qPin[..] == q
      modifies qCurrent
      ensures qCurrent[..] == Measured(t, q)
    {
      var i := 0;
      while i < t.n
        invariant 0 <= i <= t.n
        invariant qCurrent[..i] == Measured(t, q)[..i]
      {
        assert t.stateIdxQ[..t.n][i] == t.cmdIdxQ[i];
        qCurrent[i] := qPin[t.cmdIdxQ[i]];
        assert qCurrent[..i + 1] == qCurrent[..i] + [Measured(t, q)[i]];
        i := i + 1;
      }
      assert qCurrent[..] == qCurrent[..t.n];
    }

    method CheckDeltaLimits() returns (ok: bool)
      requires Valid()
      ensures ok <==> WithinDelta(t, lastSafe[..], qCmd[..])
    {
      var i := 0;
      while i < t.n
        invariant 0 <= i <= t.n
        invariant forall k | 0 <= k < i :: Abs(qCmd[k] - lastSafe[k]) <= t.maxDelta[k]
      {
        if Abs(qCmd[i] - lastSafe[i]) > t.maxDelta[i] {
          return false;
        }
        i := i + 1;
      }
      ok := true;
    }

    /** The velocities that reach the command in one period; zero off the commanded joints. */
    method FillVelocities(dt: real)
      requires Valid() && dt != 0.0
      modifies vPin
      ensures forall i | 0 <= i < t.n :: Covers(vPin[t.cmdIdxV[i]], dt, qCmd[i] - Measured(t, qPin[..])[i])
      ensures forall c | 0 <= c < vPin.Length && c !in t.cmdIdxV :: vPin[c] == 0.0
    {
      hide Covers;
      CopyInto(vPin, seq(t.model.nv, _ => 0.0));
      var i := 0;
      while i < t.n
        invariant 0 <= i <= t.n
        invariant forall k | 0 <= k < i :: Covers(vPin[t.cmdIdxV[k]], dt, qCmd[k] - Measured(t, qPin[..])[k])
        invariant forall c | 0 <= c < vPin.Length && c !in t.cmdIdxV[..i] :: vPin[c] == 0.0
      {
        vPin[t.cmdIdxV[i]] := VelocityOf(qCmd[i] - qPin[t.cmdIdxQ[i]], dt);
        i := i + 1;
      }
      assert t.cmdIdxV[..i] == t.cmdIdxV;
    }

    /** check_horizon_collision_free: the verdict does not depend on the period, whose factor cancels. */
    method CheckHorizon(dt0: real) returns (ok: bool)
      requires Valid() && (dt0 > 0.0 || t.period != 0.0)
      modifies vPin
      ensures ok <==> HorizonClear(t, qPin[..], qCmd[..])
    {
      var dt := if dt0 <= 0.0 then t.period else dt0;
      ghost var q, c := qPin[..], qCmd[..];
      FillVelocities(dt);
      var dv := seq(vPin.Length, i requires 0 <= i < vPin.Length reads vPin => Travel(vPin[i], dt));
      StepsFromVelocities(t, q, c, vPin[..], dt, dv);
      ok := ScanHorizon(t, qPin[..], q, c, dv);
    }

    /** The message loop: replace the entries of the command that the reference moves. */
    method FollowMessage(msg: Option<seq<Option<real>>>) returns (changed: bool)
      requires Valid()
      modifies qCmd
      ensures qCmd[..] == Follow(old(qCmd[..]), qCurrent[..], msg)
      ensures changed <==> qCmd[..] != old(qCmd[..])
    {
      hide Reference;
      changed := false;
      if msg.None? || |msg.value| != t.n {
        return;
      }
      ghost var was := qCmd[..];
      ghost var target := Follow(was, qCurrent[..], msg);
      var i := 0;
      while i < t.n
        invariant 0 <= i <= t.n
        invariant forall k | 0 <= k < i :: qCmd[k] == target[k]
        invariant forall k | i <= k < t.n :: qCmd[k] == was[k]
        invariant changed <==> exists k | 0 <= k < i :: qCmd[k] != was[k]
      {
        var r := Reference(msg.value[i], qCurrent[i]);
        if Abs(r - qCmd[i]) > EPSILON {
          qCmd[i] := r;
          changed := true;
        }
        i := i + 1;
      }
    }

    /** on_activate: whatever the arm measures now is the first safe command. */
    method OnActivate(input: Input)
      requires Valid() && InputOk(t, input)
      modifies this`has, qPin, qCurrent, qCmd, lastSafe
      ensures View() == Activated(t, input)
    {
      ReadCurrentState(input);
      CopyInto(qCmd, qCurrent[..]);
      CopyInto(lastSafe, qCurrent[..]);
      has := true;
    }

    method OnDeactivate()
      modifies this`has
      ensures View() == old(View()).(has := false)
    {
      has := false;
    }

    /** update(): the vector written to the hardware is the new command. */
    method Update(input: Input) returns (written: seq<real>)
      requires Valid() && InputOk(t, input) && (input.dt > 0.0 || t.period != 0.0)
      modifies this`has, qPin, vPin, qCurrent, qCmd, lastSafe
      ensures View() == Cycle(t, old(View()), input)
      ensures written == View().cmd
    {
      hide Pose, Measured, Follow, WithinDelta, HorizonClear;
      ReadCurrentState(input);
      var changed := FollowMessage(input.msg);
      var ok := has;
      if ok {
        ok := CheckDeltaLimits();
        if ok {
          ok := CheckHorizon(input.dt);
        }
      }
      if ok {
        CopyInto(lastSafe, qCmd[..]);
        has := true;
      } else {
        CopyInto(qCmd, if has then lastSafe[..] else qCurrent[..]);
      }
      written := qCmd[..];
    }
  }

  /** The horizon loop over a working copy of the pose. */
  method ScanHorizon(t: Tables, start: Vec, ghost q: Vec, ghost c: Vec, dv: Vec) returns (ok: bool)
    requires t.Valid() && |q| == |t.model.neutral| && |c| == t.n && start == q && OneStep(t, q, c, dv)
    ensures ok <==> HorizonClear(t, q, c)
  {
    AheadZero(t, q, c);
    hide Ahead, Measured, Integrate;
    var qStep := start;
    var k := 0;
    while k < t.horizon
      invariant 0 <= k && (k <= t.horizon || k == 0)
      invariant qStep == Ahead(t, q, c, k)
      invariant forall l | 1 <= l <= k :: !t.collides(Ahead(t, q, c, l))
    {
      IntegrateStep(t, q, c, dv, k);
      qStep := Integrate(t.model, qStep, dv);
      if t.collides(qStep) {
        return false;
      }
      k := k + 1;
    }
    ok := true;
  }

  function Activated(t: Tables, input: Input): (s: State)
    requires t.Valid() && InputOk(t, input)
  {
    var m := Measured(t, Pose(t, input));
    State(m, m, true)
  }

  /** A velocity held for dt moves a joint by delta. */
  predicate Covers(v: real, dt: real, delta: real) {
    v * dt == delta
  }

  function VelocityOf(delta: real, dt: real): (v: real)
    requires dt != 0.0
    ensures Covers(v, dt, delta)
  {
    delta / dt
  }

  function Travel(v: real, dt: real): real {
    v * dt
  }

  /** One period of motion: the commanded joints move by c - m, no other coordinate moves. */
  ghost predicate OneStep(t: Tables, q: Vec, c: Vec, dv: Vec)
    requires t.Valid() && |q| == |t.model.neutral| && |c| == t.n
  {
    && |dv| == t.model.nv
    && (forall i | 0 <= i < t.n :: dv[t.cmdIdxV[i]] == c[i] - Measured(t, q)[i])
    && forall v | 0 <= v < |dv| && v !in t.cmdIdxV :: dv[v] == 0.0
  }

  lemma StepsFromVelocities(t: Tables, q: Vec, c: Vec, vs: Vec, dt: real, dv: Vec)
    requires t.Valid() && |q| == |t.model.neutral| && |c| == t.n && |vs| == |dv| == t.model.nv
    requires forall i | 0 <= i < t.n :: Covers(vs[t.cmdIdxV[i]], dt, c[i] - Measured(t, q)[i])
    requires forall v | 0 <= v < |vs| && v !in t.cmdIdxV :: vs[v] == 0.0
    requires forall v | 0 <= v < |vs| :: dv[v] == Travel(vs[v], dt)
    ensures OneStep(t, q, c, dv)
  {
  }

  lemma AheadAt(t: Tables, q: Vec, c: Vec, k: int)
    requires t.Valid() && |q| == |t.model.neutral| && |c| == t.n
    ensures forall i | 0 <= i < t.n :: Ahead(t, q, c, k)[t.cmdIdxQ[i]] == AheadValues(t, q, c, k)[i]
    ensures forall x | 0 <= x < |q| && x !in t.cmdIdxQ :: Ahead(t, q, c, k)[x] == q[x]
  {
    assert forall i | 0 <= i < t.n :: t.stateIdxQ[..t.n][i] == t.stateIdxQ[i];
    ScatterAt(q, t.cmdIdxQ, AheadValues(t, q, c, k));
  }

  lemma AheadZero(t: Tables, q: Vec, c: Vec)
    requires t.Valid() && |q| == |t.model.neutral| && |c| == t.n
    ensures Ahead(t, q, c, 0) == q
  {
    AheadAt(t, q, c, 0);
    forall x | 0 <= x < |q| ensures Ahead(t, q, c, 0)[x] == q[x] {
      if x in t.cmdIdxQ {
        var i :| 0 <= i < t.n && t.cmdIdxQ[i] == x;
        assert AheadValues(t, q, c, 0)[i] == q[x];
      }
    }
  }

  /** Integrating once more takes the pose k steps ahead to the pose k + 1 steps ahead. */
  lemma IntegrateStep(t: Tables, q: Vec, c: Vec, dv: Vec, k: int)
    requires t.Valid() && |q| == |t.model.neutral| && |c| == t.n && OneStep(t, q, c, dv)
    ensures Integrate(t.model, Ahead(t, q, c, k), dv) == Ahead(t, q, c, k + 1)
  {
    AheadAt(t, q, c, k);
    AheadAt(t, q, c, k + 1);
    var next := Integrate(t.model, Ahead(t, q, c, k), dv);
    forall x | 0 <= x < |q| ensures next[x] == Ahead(t, q, c, k + 1)[x] {
      if x in t.cmdIdxQ {
        var i :| 0 <= i < t.n && t.cmdIdxQ[i] == x;
        NextValue(t, q, c, k, i);
      } else if x in t.model.velOf {
        assert t.model.velOf[x] !in t.cmdIdxV;
      }
    }
  }

  lemma NextValue(t: Tables, q: Vec, c: Vec, k: int, i: nat)
    requires t.Valid() && |q| == |t.model.neutral| && |c| == t.n && i < t.n
    ensures AheadValues(t, q, c, k + 1)[i] == AheadValues(t, q, c, k)[i] + (c[i] - Measured(t, q)[i])
  {
  }
}
