// The table the dummy server serves: interpolated waypoints or a recorded episode, and the scale that shrinks
// every row toward the first.
module ReplayTable {
  import opened JointSpace

  /** Seconds to travel from the previous waypoint, the arm joints, the gripper width. */
  datatype Waypoint = Waypoint(duration: real, q: Vec, grip: real)

  /** Python's round: to the nearest integer, halves to the even one. */
  function Round(x: real): (r: int)
    ensures Abs(r as real - x) <= 0.5 && (Abs(r as real - x) == 0.5 ==> r % 2 == 0)
  {
    var f := x.Floor;
    if x - f as real < 0.5 then f
    else if x - f as real > 0.5 then f + 1
    else if f % 2 == 0 then f else f + 1
  }

  function Steps(duration: real, fps: nat): (n: nat)
    ensures n >= 1
  {
    var r := Round(duration * fps as real);
    if r > 1 then r else 1
  }

  /** A segment has as many rows as its time holds, rounded, halves to the even number; but one at least. */
  lemma StepsSay(duration: real, fps: nat)
    ensures var x, n := duration * fps as real, Steps(duration, fps);
            if x < 1.5 then n == 1
            else n as real - 0.5 <= x <= n as real + 0.5 && (x == n as real - 0.5 || x == n as real + 0.5 ==> n % 2 == 0)
  {
  }

  ghost predicate WaypointsOk(wps: seq<Waypoint>) {
    wps != [] && forall i | 0 <= i < |wps| :: |wps[i].q| == |wps[0].q|
  }

  function Pose(w: Waypoint): Vec {
    w.q + [w.grip]
  }

  /** The i-th of n equal parts of the way. */
  function Part(i: nat, n: nat): real
    requires n > 0
  {
    i as real / n as real
  }

  /** Row i of the segment to w: the gripper is already where w wants it. */
  function SegmentRow(prev: Vec, w: Waypoint, n: nat, i: nat): Vec
    requires |prev| == |w.q| && n > 0
  {
    Lerp(prev, w.q, Part(i, n)) + [w.grip]
  }

  function Segment(prev: Vec, w: Waypoint, n: nat): (s: seq<Vec>)
    requires |prev| == |w.q| && n > 0
    ensures |s| == n
  {
    seq(n, i requires 0 <= i < n => SegmentRow(prev, w, n, i + 1))
  }

  /** The table up to and including waypoint k. */
  function Table(wps: seq<Waypoint>, fps: nat, k: nat): (t: seq<Vec>)
    requires WaypointsOk(wps) && k < |wps|
    ensures |t| == IndexOf(wps, fps, k) + 1
  {
    if k == 0 then [Pose(wps[0])]
    else Table(wps, fps, k - 1) + Segment(wps[k - 1].q, wps[k], Steps(wps[k].duration, fps))
  }

  /** The row at which waypoint k is reached. */
  function IndexOf(wps: seq<Waypoint>, fps: nat, k: nat): nat
    requires k < |wps|
  {
    if k == 0 then 0 else IndexOf(wps, fps, k - 1) + Steps(wps[k].duration, fps)
  }

  /** build_waypoint_table. */
  method BuildWaypointTable(wps: seq<Waypoint>, fps: nat) returns (rows: seq<Vec>)
    requires WaypointsOk(wps)
    ensures rows == Table(wps, fps, |wps| - 1)
  {
    hide Steps, SegmentRow, IndexOf;
    var prev := wps[0].q;
    rows := [prev + [wps[0].grip]];
    var k := 1;
    while k < |wps|
      invariant 1 <= k <= |wps|
      invariant prev == wps[k - 1].q && rows == Table(wps, fps, k - 1)
    {
      var n := Steps(wps[k].duration, fps);
      ghost var before := rows;
      var i := 1;
      while i <= n
        invariant 1 <= i <= n + 1
        invariant rows == before + Segment(prev, wps[k], n)[..i - 1]
      {
        assert Segment(prev, wps[k], n)[..i] == Segment(prev, wps[k], n)[..i - 1] + [SegmentRow(prev, wps[k], n, i)];
        rows := rows + [SegmentRow(prev, wps[k], n, i)];
        i := i + 1;
      }
      assert Segment(prev, wps[k], n)[..n] == Segment(prev, wps[k], n);
      prev := wps[k].q;
      k := k + 1;
    }
  }

  lemma SegmentEnds(prev: Vec, w: Waypoint, n: nat)
    requires |prev| == |w.q| && n > 0
    ensures Segment(prev, w, n)[n - 1] == Pose(w)
  {
    hide Lerp, Blend;
    LerpEnds(prev, w.q);
    assert n as real / n as real == 1.0;
  }

  /** Every waypoint is in the table, exactly, at the row its travel times add up to. */
  lemma {:induction false} WaypointHit(wps: seq<Waypoint>, fps: nat, j: nat, k: nat)
    requires WaypointsOk(wps) && j <= k < |wps|
    ensures IndexOf(wps, fps, j) < |Table(wps, fps, k)| && Table(wps, fps, k)[IndexOf(wps, fps, j)] == Pose(wps[j])
  {
    hide Segment, Steps;
    if j < k {
      WaypointHit(wps, fps, j, k - 1);
    } else if k > 0 {
      SegmentEnds(wps[k - 1].q, wps[k], Steps(wps[k].duration, fps));
    }
  }

  /**
   Row i of the n rows that lead to waypoint k: every joint has covered i n-ths of the way from the waypoint before,
   and the gripper is already where waypoint k wants it.
   */
  lemma RowSays(wps: seq<Waypoint>, fps: nat, k: nat, i: nat, j: nat)
    requires WaypointsOk(wps) && 0 < k < |wps| && 1 <= i <= Steps(wps[k].duration, fps) && j < |wps[0].q|
    ensures var n := Steps(wps[k].duration, fps);
            var t := Table(wps, fps, k);
            && IndexOf(wps, fps, k) == IndexOf(wps, fps, k - 1) + n && IndexOf(wps, fps, k - 1) + i < |t|
            && var row := t[IndexOf(wps, fps, k - 1) + i];
               && |row| == |wps[0].q| + 1 && row[|wps[0].q|] == wps[k].grip
               && n as real * (row[j] - wps[k - 1].q[j]) == i as real * (wps[k].q[j] - wps[k - 1].q[j])
  {
    hide Steps, SegmentRow;
    var n := Steps(wps[k].duration, fps);
    assert Table(wps, fps, k)[IndexOf(wps, fps, k - 1) + i] == SegmentRow(wps[k - 1].q, wps[k], n, i);
    SegmentRowSays(wps[k - 1].q, wps[k], n, i, j);
  }

  lemma SegmentRowSays(prev: Vec, w: Waypoint, n: nat, i: nat, j: nat)
    requires |prev| == |w.q| && n > 0 && j < |prev|
    ensures var row := SegmentRow(prev, w, n, i);
            && |row| == |prev| + 1 && row[|prev|] == w.grip
            && n as real * (row[j] - prev[j]) == i as real * (w.q[j] - prev[j])
  {
    var s := Part(i, n);
    assert s * n as real == i as real;
    Shared(n as real, s, i as real, w.q[j] - prev[j]);
  }

  lemma Shared(n: real, s: real, i: real, d: real)
    requires s * n == i
    ensures n * (s * d) == i * d
  {
  }

  /** s and t are one m-th apart. */
  ghost predicate OnePart(s: real, t: real, m: real) {
    Abs(t - s) * m == 1.0
  }

  lemma NextPart(i: nat, n: nat)
    requires n > 0
    ensures OnePart(Part(i, n), Part(i + 1, n), n as real)
  {
  }

  lemma Apart(a: Vec, b: Vec, s: real, t: real, m: real)
    requires |a| == |b| && OnePart(s, t, m)
    ensures ScaledBy(m, Dist(Lerp(a, b, s), Lerp(a, b, t)), Dist(a, b))
  {
    hide Lerp, Blend, Dist, ScaledBy, OnePart, Abs;
    LerpDist(a, b, s, t);
    Whole(s, t, m, Dist(a, b), Dist(Lerp(a, b, s), Lerp(a, b, t)));
  }

  lemma Whole(s: real, t: real, m: real, d: real, e: real)
    requires OnePart(s, t, m) && ScaledBy(Abs(t - s), d, e)
    ensures ScaledBy(m, e, d)
  {
  }

  /** Within a segment the arm moves by the same amount each row: n such moves make up the whole way. */
  lemma SegmentPace(prev: Vec, w: Waypoint, n: nat, i: nat)
    requires |prev| == |w.q| && n > 0 && i < n
    ensures var a, b := SegmentRow(prev, w, n, i), SegmentRow(prev, w, n, i + 1);
            ScaledBy(n as real, Dist(a[..|prev|], b[..|prev|]), Dist(prev, w.q))
  {
    hide Lerp, Blend, Dist, ScaledBy, Part, OnePart;
    var a, b := SegmentRow(prev, w, n, i), SegmentRow(prev, w, n, i + 1);
    assert a[..|prev|] == Lerp(prev, w.q, Part(i, n)) && b[..|prev|] == Lerp(prev, w.q, Part(i + 1, n));
    NextPart(i, n);
    Apart(prev, w.q, Part(i, n), Part(i + 1, n), n as real);
  }

  // -------------------------------------------------------------------------------- the scale

  ghost predicate Rectangular(table: seq<Vec>) {
    table != [] && forall i | 0 <= i < |table| :: |table[i]| == |table[0]|
  }

  /** build_table's scaling: rows move toward row 0, and a scale of 1 leaves the table alone. */
  function Scaled(table: seq<Vec>, scale: real): (t: seq<Vec>)
    requires Rectangular(table)
    ensures |t| == |table|
  {
    if scale != 1.0 then seq(|table|, i requires 0 <= i < |table| => Lerp(table[0], table[i], scale)) else table
  }

  /** One law for every scale: row 0 stays, 0 gives a static table, and every distance between rows scales. */
  lemma ScaledRows(table: seq<Vec>, scale: real, i: nat, j: nat)
    requires Rectangular(table) && i < |table| && j < |table| && scale >= 0.0
    ensures var t := Scaled(table, scale);
            && t[i] == Lerp(table[0], table[i], scale) && |t[i]| == |t[j]| == |table[0]|
            && t[0] == table[0]
            && (scale == 0.0 ==> t[i] == table[0])
            && ScaledBy(scale, Dist(table[i], table[j]), Dist(t[i], t[j]))
  {
    hide Dist, ScaledBy, Blend;
    LerpEnds(table[0], table[i]);
    LerpEnds(table[0], table[j]);
    assert Lerp(table[0], table[0], scale) == table[0] by {
      SameEnds(table[0], scale);
    }
    LerpMoveEnd(table[0], table[i], table[j], scale);
  }

  lemma SameEnds(a: Vec, s: real)
    ensures Lerp(a, a, s) == a
  {
  }
}
