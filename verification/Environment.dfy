// What the planner reads from outside: a monotonic clock and a random generator. Both are arbitrary
// sequences fixed in advance, so a statement about a planner run holds for every clock and every draw.
module Environment {
  import opened JointSpace

  class World {
    const clock: nat -> real
    const draw: (nat, nat) -> real
    const pick: nat -> int
    var readings: nat
    var draws: nat

    constructor (clock: nat -> real, draw: (nat, nat) -> real, pick: nat -> int)
      ensures this.clock == clock && this.draw == draw && this.pick == pick
      ensures readings == 0 && draws == 0
    {
      this.clock, this.draw, this.pick := clock, draw, pick;
      readings, draws := 0, 0;
    }

    /** The clock never runs backwards. */
    ghost predicate Monotonic() {
      forall i: nat, j: nat | i <= j :: clock(i) <= clock(j)
    }

    ghost predicate PassedBy(deadline: real, n: nat) {
      clock(n) >= deadline
    }

    ghost predicate Reached(deadline: real) {
      exists n: nat :: PassedBy(deadline, n)
    }

    /** The clock never runs backwards and gets past every deadline. */
    ghost predicate Ticking() {
      Monotonic() && forall d: real :: Reached(d)
    }

    /** A reading in [from, to) was at or past the deadline. */
    ghost predicate Expired(deadline: real, from: nat, to: nat) {
      exists i: nat | from <= i < to :: PassedBy(deadline, i)
    }

    /** Once past a deadline, every later reading is past it. */
    lemma StaysPassed(deadline: real, from: nat, to: nat, n: nat)
      requires Monotonic() && Expired(deadline, from, to) && to <= n
      ensures PassedBy(deadline, n)
    {
    }

    lemma PassedLater(deadline: real, n: nat, m: nat)
      requires Monotonic() && n <= m
      ensures PassedBy(deadline, n) ==> PassedBy(deadline, m)
    {
      assert clock(n) <= clock(m);
    }

    lemma ExpiredWider(deadline: real, from: nat, mid: nat, to: nat)
      requires from <= mid <= to
      ensures Expired(deadline, from, mid) || Expired(deadline, mid, to) ==> Expired(deadline, from, to)
    {
    }

    /** A reading that is on time comes before any that is late. */
    lemma OnTime(deadline: real, n: nat, last: nat)
      requires Monotonic() && PassedBy(deadline, last) && !PassedBy(deadline, n)
      ensures n < last
    {
    }

    method Now() returns (t: real)
      modifies this`readings
      ensures t == clock(old(readings)) && readings == old(readings) + 1
    {
      t := clock(readings);
      readings := readings + 1;
    }

    /** time.monotonic() >= deadline. */
    method Late(deadline: real) returns (late: bool)
      modifies this`readings
      ensures readings == old(readings) + 1
      ensures late <==> PassedBy(deadline, old(readings))
    {
      var t := Now();
      late := t >= deadline;
    }

    /** rng.uniform(lo, hi), one draw per coordinate. */
    method Uniform(lo: Vec, hi: Vec) returns (q: Vec)
      requires |lo| == |hi|
      requires forall i | 0 <= i < |lo| :: lo[i] <= hi[i]
      modifies this`draws
      ensures draws == old(draws) + 1
      ensures InBox(q, lo, hi)
    {
      var n := draws;
      q := seq(|lo|, i requires 0 <= i < |lo| => Clip(draw(n, i), lo[i], hi[i]));
      assert forall i | 0 <= i < |lo| :: q[i] == Clip(draw(n, i), lo[i], hi[i]);
      draws := draws + 1;
    }

    /** rng.integers(lo, hi): lo <= k < hi. */
    method Integer(lo: int, hi: int) returns (k: int)
      requires lo < hi
      modifies this`draws
      ensures draws == old(draws) + 1
      ensures lo <= k < hi
    {
      k := lo + pick(draws) % (hi - lo);
      draws := draws + 1;
    }
  }
}
