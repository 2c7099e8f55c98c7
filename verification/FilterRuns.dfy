// Safety of the filter over whole runs since an activation, for every stream of readings and messages.
module FilterRuns {
  import opened Options
  import opened JointSpace
  import opened SafetyFilter

  ghost predicate InputsOk(t: Tables, ins: seq<Input>) {
    forall k | 0 <= k < |ins| :: InputOk(t, ins[k])
  }

  /** The state after the first k cycles. */
  ghost function After(t: Tables, s0: State, ins: seq<Input>, k: nat): (s: State)
    requires t.Valid() && StateOk(t, s0) && InputsOk(t, ins) && k <= |ins|
    ensures StateOk(t, s)
  {
    if k == 0 then s0 else Cycle(t, After(t, s0, ins, k - 1), ins[k - 1])
  }

  /** The vector the k-th cycle writes to the joints. */
  ghost function Written(t: Tables, s0: State, ins: seq<Input>, k: nat): (c: Vec)
    requires t.Valid() && StateOk(t, s0) && InputsOk(t, ins) && k < |ins|
    ensures |c| == t.n
  {
    After(t, s0, ins, k + 1).cmd
  }

  /** c is clear over the whole horizon, seen from the pose measured in this cycle. */
  ghost predicate Vetted(t: Tables, input: Input, c: Vec)
    requires t.Valid() && InputOk(t, input) && |c| == t.n
  {
    HorizonClear(t, Pose(t, input), c)
  }

  /** Filtering and in step: the command is the last safe one. */
  ghost predicate Holding(s: State) {
    s.has && s.cmd == s.lastSafe
  }

  lemma {:induction false} AlwaysHolding(t: Tables, s0: State, ins: seq<Input>, k: nat)
    requires t.Valid() && StateOk(t, s0) && InputsOk(t, ins) && k <= |ins| && Holding(s0)
    ensures Holding(After(t, s0, ins, k))
  {
    hide Pose, Measured, Follow, WithinDelta, HorizonClear;
    if k > 0 {
      AlwaysHolding(t, s0, ins, k - 1);
    }
  }

  /** Cycle j accepted c, seen clear over the horizon, and c has been written ever since, up to cycle k. */
  ghost predicate AcceptedAt(t: Tables, s0: State, ins: seq<Input>, j: nat, k: nat, c: Vec)
    requires t.Valid() && StateOk(t, s0) && InputsOk(t, ins) && j <= k < |ins| && |c| == t.n
  {
    && Accepts(t, After(t, s0, ins, j), ins[j]) && Vetted(t, ins[j], c)
    && forall i: nat | j <= i <= k :: Written(t, s0, ins, i) == c
  }

  /**
   Every vector written since activation is the pose measured at activation, held from the start, or was
   accepted at some cycle j, whose measured pose leaves it and its extrapolation collision-free, and held since.
   */
  lemma {:induction false} EveryWriteVetted(t: Tables, activation: Input, ins: seq<Input>, k: nat)
    requires t.Valid() && InputOk(t, activation) && InputsOk(t, ins) && k < |ins|
    ensures var s0 := Activated(t, activation);
            var c := Written(t, s0, ins, k);
            || (c == Measured(t, Pose(t, activation)) && forall i: nat | i <= k :: Written(t, s0, ins, i) == c)
            || exists j: nat | j <= k :: AcceptedAt(t, s0, ins, j, k, c)
  {
    hide Pose, Measured, Follow, WithinDelta, HorizonClear;
    var s0 := Activated(t, activation);
    var c := Written(t, s0, ins, k);
    AlwaysHolding(t, s0, ins, k);
    if Accepts(t, After(t, s0, ins, k), ins[k]) {
      assert AcceptedAt(t, s0, ins, k, k, c);
    } else if k > 0 {
      var p: nat := k - 1;
      EveryWriteVetted(t, activation, ins, p);
      assert c == Written(t, s0, ins, p);
      if j: nat :| j <= p && AcceptedAt(t, s0, ins, j, p, c) {
        assert AcceptedAt(t, s0, ins, j, k, c);
      }
    }
  }

  /** The first horizon step is the command itself with every other joint frozen. */
  lemma FirstStepIsCommand(t: Tables, q: Vec, c: Vec)
    requires t.Valid() && |q| == |t.model.neutral| && |c| == t.n
    ensures forall i | 0 <= i < t.n :: Ahead(t, q, c, 1)[t.cmdIdxQ[i]] == c[i]
    ensures forall x | 0 <= x < |q| && x !in t.cmdIdxQ :: Ahead(t, q, c, 1)[x] == q[x]
  {
    AheadAt(t, q, c, 1);
    forall i | 0 <= i < t.n ensures AheadValues(t, q, c, 1)[i] == c[i] {
      assert 1 as real * (c[i] - Measured(t, q)[i]) == c[i] - Measured(t, q)[i];
    }
  }

  /** Reading a pose: every listed joint has its own measured position, every other the neutral one. */
  lemma PoseIsMeasured(t: Tables, input: Input)
    requires t.Valid() && InputOk(t, input)
    ensures forall i | 0 <= i < |t.stateIdxQ| :: Pose(t, input)[t.stateIdxQ[i]] == input.sensors[2 * i]
    ensures forall x | 0 <= x < |t.model.neutral| && x !in t.stateIdxQ :: Pose(t, input)[x] == t.model.neutral[x]
    ensures forall i | 0 <= i < t.n :: Measured(t, Pose(t, input))[i] == input.sensors[2 * i]
  {
    ScatterAt(t.model.neutral, t.stateIdxQ, Positions(input.sensors, |t.stateIdxQ|));
    forall i | 0 <= i < t.n ensures Measured(t, Pose(t, input))[i] == input.sensors[2 * i] {
      assert t.stateIdxQ[..t.n][i] == t.stateIdxQ[i];
    }
  }

  // -------------------------------------------------------------------------- bounded drift

  /** The most joint i may move in one cycle. */
  function StepLimit(t: Tables, i: nat): (d: real)
    requires i < |t.maxDelta|
    ensures d >= 0.0
  {
    Max(0.0, t.maxDelta[i])
  }

  lemma CycleStep(t: Tables, s: State, input: Input, i: nat)
    requires t.Valid() && StateOk(t, s) && InputOk(t, input) && Holding(s) && i < t.n
    ensures Abs(Cycle(t, s, input).cmd[i] - s.cmd[i]) <= StepLimit(t, i)
  {
  }

  /** n cycles move joint i by at most n of its step limits. */
  lemma {:induction false} BoundedDrift(t: Tables, s0: State, ins: seq<Input>, k: nat, n: nat, i: nat)
    requires t.Valid() && StateOk(t, s0) && InputsOk(t, ins) && k + n <= |ins| && Holding(s0) && i < t.n
    ensures Abs(After(t, s0, ins, k + n).cmd[i] - After(t, s0, ins, k).cmd[i]) <= n as real * StepLimit(t, i)
  {
    hide Cycle, StepLimit, Holding, Abs;
    if n == 0 {
      NoDrift(After(t, s0, ins, k).cmd[i], StepLimit(t, i));
    } else {
      BoundedDrift(t, s0, ins, k, n - 1, i);
      AlwaysHolding(t, s0, ins, k + n - 1);
      var before, now := After(t, s0, ins, k + n - 1), After(t, s0, ins, k + n);
      assert now == Cycle(t, before, ins[k + n - 1]);
      CycleStep(t, before, ins[k + n - 1], i);
      DriftMore(After(t, s0, ins, k).cmd[i], before.cmd[i], now.cmd[i], n, StepLimit(t, i));
    }
  }

  lemma NoDrift(x: real, d: real)
    ensures Abs(x - x) <= 0 as real * d
  {
  }

  lemma DriftMore(x: real, y: real, z: real, n: nat, d: real)
    requires n > 0 && Abs(y - x) <= (n - 1) as real * d && Abs(z - y) <= d
    ensures Abs(z - x) <= n as real * d
  {
    OneMore(n - 1, d);
  }

  // ------------------------------------------------------------------------ what is accepted

  /** What a message asks of one joint now at x and measured at m: a value that is 1e-6 or less away changes nothing. */
  ghost predicate AskedFor(entry: Option<real>, m: real, x: real, c: real) {
    match entry
    case Some(r) => if r - 0.000001 <= x <= r + 0.000001 then c == x else c == r
    case None => if m - 0.000001 <= x <= m + 0.000001 then c == x else c == m
  }

  /** The command a cycle considers: what a well-sized message asks, joint by joint, and else the command there is. */
  ghost predicate Considered(t: Tables, s: State, input: Input, c: Vec)
    requires t.Valid() && StateOk(t, s) && InputOk(t, input)
  {
    |c| == t.n &&
    if input.msg.Some? && |input.msg.value| == t.n then
      forall i | 0 <= i < t.n :: AskedFor(input.msg.value[i], input.sensors[2 * i], s.cmd[i], c[i])
    else c == s.cmd
  }

  /** x is k times as far from m as c is. */
  ghost predicate Extrapolated(m: real, c: real, k: int, x: real) {
    x == m + k as real * (c - m)
  }

  /** p is the robot k steps of c ahead of the sensors: commanded joints extrapolated, sensed ones as sensed, the rest neutral. */
  ghost predicate StepsAhead(t: Tables, input: Input, c: Vec, k: int, p: Vec)
    requires t.Valid() && InputOk(t, input) && |c| == t.n
  {
    && |p| == |t.model.neutral|
    && (forall i | 0 <= i < t.n :: Extrapolated(input.sensors[2 * i], c[i], k, p[t.stateIdxQ[i]]))
    && (forall i | t.n <= i < |t.stateIdxQ| :: p[t.stateIdxQ[i]] == input.sensors[2 * i])
    && forall x | 0 <= x < |p| && x !in t.stateIdxQ :: p[x] == t.model.neutral[x]
  }

  /** The filter lets c pass: no joint further than its limit from the last safe vector, no collision ahead. */
  ghost predicate Passes(t: Tables, s: State, input: Input, c: Vec)
    requires t.Valid() && StateOk(t, s) && InputOk(t, input) && |c| == t.n
  {
    && s.has
    && (forall i | 0 <= i < t.n :: s.lastSafe[i] - t.maxDelta[i] <= c[i] <= s.lastSafe[i] + t.maxDelta[i])
    && forall k, p: Vec | 1 <= k <= t.horizon && StepsAhead(t, input, c, k, p) :: !t.collides(p)
  }

  lemma {:induction false} AheadIs(t: Tables, input: Input, c: Vec, k: int)
    requires t.Valid() && InputOk(t, input) && |c| == t.n
    ensures StepsAhead(t, input, c, k, Ahead(t, Pose(t, input), c, k))
  {
    var q, a := Pose(t, input), Ahead(t, Pose(t, input), c, k);
    PoseIsMeasured(t, input);
    AheadAt(t, q, c, k);
    CommandedFirst(t);
    hide Pose, Ahead, Measured, AheadValues, Extrapolated;
    forall i | 0 <= i < t.n ensures Extrapolated(input.sensors[2 * i], c[i], k, a[t.stateIdxQ[i]]) {
      AheadValueIs(t, input, c, k, i);
    }
  }

  lemma AheadValueIs(t: Tables, input: Input, c: Vec, k: int, i: nat)
    requires t.Valid() && InputOk(t, input) && |c| == t.n && i < t.n
    ensures Extrapolated(input.sensors[2 * i], c[i], k, AheadValues(t, Pose(t, input), c, k)[i])
  {
    PoseIsMeasured(t, input);
    hide Pose, Measured;
  }

  lemma {:induction false} OneAhead(t: Tables, input: Input, c: Vec, k: int, p: Vec, p': Vec)
    requires t.Valid() && InputOk(t, input) && |c| == t.n
    requires StepsAhead(t, input, c, k, p) && StepsAhead(t, input, c, k, p')
    ensures p == p'
  {
    hide t.Valid;
    forall x | 0 <= x < |p| ensures p[x] == p'[x] {
      if x in t.stateIdxQ {
        var i :| 0 <= i < |t.stateIdxQ| && t.stateIdxQ[i] == x;
        if i < t.n {
          assert p[t.stateIdxQ[i]] == p'[t.stateIdxQ[i]];
        }
      }
    }
  }

  lemma CommandedFirst(t: Tables)
    requires t.Valid()
    ensures forall i | 0 <= i < t.n :: t.stateIdxQ[i] == t.cmdIdxQ[i]
    ensures forall i | t.n <= i < |t.stateIdxQ| :: t.stateIdxQ[i] !in t.cmdIdxQ
  {
    forall i | 0 <= i < t.n ensures t.stateIdxQ[i] == t.cmdIdxQ[i] {
      assert t.stateIdxQ[..t.n][i] == t.cmdIdxQ[i];
    }
  }

  lemma {:induction false} HorizonIs(t: Tables, input: Input, c: Vec)
    requires t.Valid() && InputOk(t, input) && |c| == t.n
    ensures HorizonClear(t, Pose(t, input), c) <==>
            forall k, p: Vec | 1 <= k <= t.horizon && StepsAhead(t, input, c, k, p) :: !t.collides(p)
  {
    hide Pose, Ahead, StepsAhead;
    var q := Pose(t, input);
    forall k | 1 <= k <= t.horizon ensures StepsAhead(t, input, c, k, Ahead(t, q, c, k)) {
      AheadIs(t, input, c, k);
    }
    if HorizonClear(t, q, c) {
      forall k, p: Vec | 1 <= k <= t.horizon && StepsAhead(t, input, c, k, p) ensures !t.collides(p) {
        OneAhead(t, input, c, k, p, Ahead(t, q, c, k));
      }
    }
  }

  /**
   One cycle from the sensors and the message alone: it considers the command asked for, writes it if the filter
   lets it pass, and else writes the last safe vector, or the measured one when there is none yet.
   */
  lemma {:induction false} CycleExactly(t: Tables, s: State, input: Input) returns (c: Vec)
    requires t.Valid() && StateOk(t, s) && InputOk(t, input)
    ensures Considered(t, s, input, c)
    ensures var s' := Cycle(t, s, input);
            if Passes(t, s, input, c) then s' == State(c, c, true)
            else s'.lastSafe == s.lastSafe && s'.has == s.has &&
                 if s.has then s'.cmd == s.lastSafe else forall i | 0 <= i < t.n :: s'.cmd[i] == input.sensors[2 * i]
  {
    var q := Pose(t, input);
    c := Follow(s.cmd, Measured(t, q), input.msg);
    FollowIsConsidered(t, s, input);
    DeltaIs(t, s.lastSafe, c);
    HorizonIs(t, input, c);
    PoseIsMeasured(t, input);
    hide Pose, Measured, Follow, WithinDelta, HorizonClear, StepsAhead, Considered, t.Valid;
  }

  lemma {:induction false} FollowIsConsidered(t: Tables, s: State, input: Input)
    requires t.Valid() && StateOk(t, s) && InputOk(t, input)
    ensures Considered(t, s, input, Follow(s.cmd, Measured(t, Pose(t, input)), input.msg))
  {
    var m := Measured(t, Pose(t, input));
    MeasuredIs(t, input);
    hide Pose, Measured, t.Valid, AskedFor;
    if input.msg.Some? && |input.msg.value| == t.n {
      forall i | 0 <= i < t.n
        ensures AskedFor(input.msg.value[i], input.sensors[2 * i], s.cmd[i], Follow(s.cmd, m, input.msg)[i])
      {
        FollowAsks(s.cmd, m, input.msg, i);
      }
    }
  }

  lemma MeasuredIs(t: Tables, input: Input)
    requires t.Valid() && InputOk(t, input)
    ensures forall i | 0 <= i < t.n :: Measured(t, Pose(t, input))[i] == input.sensors[2 * i]
  {
    PoseIsMeasured(t, input);
    hide Pose, Measured, t.Valid;
  }

  lemma FollowAsks(cmd: Vec, m: Vec, msg: Option<seq<Option<real>>>, i: nat)
    requires |cmd| == |m| && msg.Some? && |msg.value| == |cmd| && i < |cmd|
    ensures AskedFor(msg.value[i], m[i], cmd[i], Follow(cmd, m, msg)[i])
  {
  }

  lemma DeltaIs(t: Tables, x: Vec, c: Vec)
    requires |x| == |c| == |t.maxDelta|
    ensures WithinDelta(t, x, c) <==> forall i | 0 <= i < |x| :: x[i] - t.maxDelta[i] <= c[i] <= x[i] + t.maxDelta[i]
  {
  }

  /** An accepted vector answers the message: within 1e-6 of every value asked, and of the sensed position for NaN. */
  lemma AcceptedNearReference(t: Tables, s: State, input: Input, i: nat)
    requires t.Valid() && StateOk(t, s) && InputOk(t, input) && i < t.n
    requires input.msg.Some? && |input.msg.value| == t.n && Accepts(t, s, input)
    ensures match input.msg.value[i]
            case Some(r) => Abs(r - Cycle(t, s, input).cmd[i]) <= 0.000001
            case None => Abs(input.sensors[2 * i] - Cycle(t, s, input).cmd[i]) <= 0.000001
  {
    PoseIsMeasured(t, input);
    hide Pose, Measured, WithinDelta, HorizonClear;
  }

  /** A cycle whose message does not have one entry per joint leaves the output where it is. */
  lemma NoMessageHolds(t: Tables, s: State, input: Input)
    requires t.Valid() && StateOk(t, s) && InputOk(t, input) && Holding(s)
    requires input.msg.None? || |input.msg.value| != t.n
    ensures Cycle(t, s, input).cmd == s.cmd
  {
  }

  /** A reference that is too far on one joint is rejected as a whole, the other joints included. */
  lemma FarReferenceHolds(t: Tables, s: State, input: Input, i: nat)
    requires t.Valid() && StateOk(t, s) && InputOk(t, input) && Holding(s) && i < t.n
    requires input.msg.Some? && |input.msg.value| == t.n && input.msg.value[i].Some?
    requires t.maxDelta[i] >= EPSILON && Abs(input.msg.value[i].value - s.cmd[i]) > t.maxDelta[i]
    ensures Cycle(t, s, input).cmd == s.cmd
  {
  }

  /** The output is stuck while each message is ill-sized or asks joint i for a value beyond reach. */
  ghost predicate Stuck(t: Tables, held: Vec, input: Input, i: nat)
    requires |held| == t.n == |t.maxDelta| && i < t.n
  {
    || input.msg.None? || |input.msg.value| != t.n
    || (input.msg.value[i].Some? && t.maxDelta[i] >= EPSILON && Abs(input.msg.value[i].value - held[i]) > t.maxDelta[i])
  }

  lemma {:induction false} StuckForever(t: Tables, s0: State, ins: seq<Input>, i: nat, k: nat)
    requires t.Valid() && StateOk(t, s0) && InputsOk(t, ins) && Holding(s0) && i < t.n && k <= |ins|
    requires forall j | 0 <= j < |ins| :: Stuck(t, s0.cmd, ins[j], i)
    ensures After(t, s0, ins, k).cmd == s0.cmd
  {
    hide Cycle;
    if k > 0 {
      StuckForever(t, s0, ins, i, k - 1);
      AlwaysHolding(t, s0, ins, k - 1);
      var s, input := After(t, s0, ins, k - 1), ins[k - 1];
      if input.msg.None? || |input.msg.value| != t.n {
        NoMessageHolds(t, s, input);
      } else {
        FarReferenceHolds(t, s, input, i);
      }
    }
  }
}
