// The hop count between two joints of the kinematic tree, and the self-collision pairs it filters out.
module KinematicTree {

  /** parents[0] is the universe's own; every other joint comes after its parent. */
  ghost predicate IsTree(parents: seq<nat>) {
    parents != [] && forall x | 0 < x < |parents| :: parents[x] < x
  }

  // --------------------------------------------------------------------- shortest paths

  /** Joined by one link. */
  predicate Linked(parents: seq<nat>, a: nat, b: nat) {
    (0 < a < |parents| && parents[a] == b) || (0 < b < |parents| && parents[b] == a)
  }

  ghost predicate IsWalk(parents: seq<nat>, w: seq<nat>, a: nat, b: nat) {
    && w != [] && w[0] == a && w[|w| - 1] == b
    && (forall i | 0 <= i < |w| :: w[i] < |parents|)
    && forall i | 0 <= i < |w| - 1 :: Linked(parents, w[i], w[i + 1])
  }

  /** n is the number of links of a shortest walk from a to b. */
  ghost predicate IsDistance(parents: seq<nat>, a: nat, b: nat, n: nat) {
    && (exists w :: IsWalk(parents, w, a, b) && |w| == n + 1)
    && forall w | IsWalk(parents, w, a, b) :: |w| >= n + 1
  }

  /** Climb from whichever joint has the larger number until the two meet. */
  function Gap(parents: seq<nat>, a: nat, b: nat): nat
    requires IsTree(parents) && a < |parents| && b < |parents|
    decreases a + b
  {
    if a == b then 0
    else if a > b then 1 + Gap(parents, parents[a], b)
    else 1 + Gap(parents, a, parents[b])
  }

  lemma {:induction false} GapSymmetric(parents: seq<nat>, a: nat, b: nat)
    requires IsTree(parents) && a < |parents| && b < |parents|
    ensures Gap(parents, a, b) == Gap(parents, b, a)
    decreases a + b
  {
    if a > b {
      GapSymmetric(parents, parents[a], b);
    } else if a < b {
      GapSymmetric(parents, a, parents[b]);
    }
  }

  /** Going to the parent changes the gap by exactly one. */
  lemma {:induction false} GapToParent(parents: seq<nat>, a: nat, b: nat)
    requires IsTree(parents) && a < |parents| && 0 < b < |parents|
    ensures var g, h := Gap(parents, a, b), Gap(parents, a, parents[b]); g == h + 1 || h == g + 1
    decreases a
  {
    if a > b {
      GapToParent(parents, parents[a], b);
    } else if a == b {
      assert Gap(parents, parents[a], parents[b]) == 0;
    }
  }

  /** No walk is shorter than the gap. */
  lemma {:induction false} WalkAtLeastGap(parents: seq<nat>, w: seq<nat>, a: nat, b: nat)
    requires IsTree(parents) && a < |parents| && b < |parents| && IsWalk(parents, w, a, b)
    ensures |w| >= Gap(parents, a, b) + 1
    decreases |w|
  {
    if |w| > 1 {
      var c := w[|w| - 2];
      assert IsWalk(parents, w[..|w| - 1], a, c);
      assert Linked(parents, c, b);
      WalkAtLeastGap(parents, w[..|w| - 1], a, c);
      if 0 < b && parents[b] == c {
        GapToParent(parents, a, b);
      } else {
        GapToParent(parents, a, c);
      }
    }
  }

  lemma {:induction false} GapWalk(parents: seq<nat>, a: nat, b: nat) returns (w: seq<nat>)
    requires IsTree(parents) && a < |parents| && b < |parents|
    ensures IsWalk(parents, w, a, b) && |w| == Gap(parents, a, b) + 1
    decreases a + b
  {
    if a == b {
      w := [a];
    } else if a > b {
      var v := GapWalk(parents, parents[a], b);
      w := [a] + v;
      assert forall i | 0 <= i < |w| - 1 :: Linked(parents, w[i], w[i + 1]) by {
        assert forall i | 0 < i < |w| - 1 :: w[i] == v[i - 1] && w[i + 1] == v[i];
        LinksAfter(parents, a, v);
      }
    } else {
      var v := GapWalk(parents, a, parents[b]);
      w := v + [b];
    }
  }

  lemma LinksAfter(parents: seq<nat>, a: nat, v: seq<nat>)
    requires v != [] && Linked(parents, a, v[0])
    requires forall i | 0 <= i < |v| - 1 :: Linked(parents, v[i], v[i + 1])
    ensures var w := [a] + v; forall i | 0 <= i < |w| - 1 :: Linked(parents, w[i], w[i + 1])
  {
  }

  lemma GapIsDistance(parents: seq<nat>, a: nat, b: nat)
    requires IsTree(parents) && a < |parents| && b < |parents|
    ensures IsDistance(parents, a, b, Gap(parents, a, b))
  {
    var v := GapWalk(parents, a, b);
    forall w | IsWalk(parents, w, a, b) ensures |w| >= Gap(parents, a, b) + 1 {
      WalkAtLeastGap(parents, w, a, b);
    }
  }

  // --------------------------------------------------------------------------- the method

  /** a and its ancestors, up to the root. */
  function Chain(parents: seq<nat>, a: nat): (c: seq<nat>)
    requires IsTree(parents) && a < |parents|
    ensures c != [] && c[0] == a && c[|c| - 1] == 0
    ensures forall i | 0 <= i < |c| :: c[i] <= a
    decreases a
  {
    if a == 0 then [0] else [a] + Chain(parents, parents[a])
  }

  ghost predicate Descending(c: seq<nat>) {
    forall i, j | 0 <= i < j < |c| :: c[j] < c[i]
  }

  lemma {:induction false} ChainDescends(parents: seq<nat>, a: nat)
    requires IsTree(parents) && a < |parents|
    ensures Descending(Chain(parents, a))
    decreases a
  {
    if a > 0 {
      ChainDescends(parents, parents[a]);
      var c, d := Chain(parents, a), Chain(parents, parents[a]);
      assert c == [a] + d && Descending(d);
    }
  }

  /** An ancestor is as far away as its place in the chain. */
  lemma {:induction false} GapToAncestor(parents: seq<nat>, a: nat, i: nat)
    requires IsTree(parents) && a < |parents| && i < |Chain(parents, a)|
    ensures Chain(parents, a)[i] < |parents| && Gap(parents, a, Chain(parents, a)[i]) == i
    decreases a
  {
    if i > 0 {
      assert Chain(parents, a)[i] == Chain(parents, parents[a])[i - 1];
      GapToAncestor(parents, parents[a], i - 1);
      ChainDescends(parents, a);
    }
  }

  /** From a joint that is no ancestor of a, the way to a leads through its parent. */
  lemma {:induction false} GapPastParent(parents: seq<nat>, a: nat, b: nat)
    requires IsTree(parents) && a < |parents| && b < |parents| && b !in Chain(parents, a)
    ensures b > 0 && Gap(parents, a, b) == Gap(parents, a, parents[b]) + 1
    decreases a
  {
    assert Chain(parents, a)[0] == a && Chain(parents, a)[|Chain(parents, a)| - 1] == 0;
    if a > b {
      assert b !in Chain(parents, parents[a]) by {
        assert Chain(parents, a) == [a] + Chain(parents, parents[a]);
      }
      GapPastParent(parents, parents[a], b);
    }
  }

  lemma ChainUnfolds(parents: seq<nat>, x: nat, before: seq<nat>)
    requires IsTree(parents) && x < |parents|
    ensures before + Chain(parents, x) ==
            if x == 0 then before + [x] else (before + [x]) + Chain(parents, parents[x])
  {
  }

  /** The climb from a joint to the root. */
  method Climb(parents: seq<nat>, a: nat) returns (chain: seq<nat>)
    requires IsTree(parents) && a < |parents|
    ensures chain == Chain(parents, a)
  {
    hide Chain;
    chain := [];
    var x: nat := a;
    while true
      invariant x < |parents| && chain + Chain(parents, x) == Chain(parents, a)
      decreases x
    {
      ChainUnfolds(parents, x, chain);
      chain := chain + [x];
      if x == 0 {
        break;
      }
      x := parents[x];
    }
  }

  /** {j: i for i, j in enumerate(chain)}. */
  function Depths(chain: seq<nat>): (d: map<nat, nat>)
    requires Descending(chain)
    ensures forall x :: x in d <==> x in chain
    ensures forall x | x in d :: d[x] < |chain| && chain[d[x]] == x
  {
    map j: nat | j < |chain| :: chain[j] := j
  }

  /** _hops: the depth of each ancestor of a, then up from b to the first of them. */
  method Hops(parents: seq<nat>, a: nat, b: nat) returns (hops: nat)
    requires IsTree(parents) && a < |parents| && b < |parents|
    ensures IsDistance(parents, a, b, hops)
    ensures hops == Gap(parents, a, b)
  {
    hide Chain, Gap, IsDistance, Depths;
    var chain := Climb(parents, a);
    ChainDescends(parents, a);
    var depth := Depths(chain);
    var db: nat, x: nat := 0, b;
    while x !in depth
      invariant x < |parents| && Gap(parents, a, b) == Gap(parents, a, x) + db
      decreases x
    {
      GapPastParent(parents, a, x);
      x := parents[x];
      db := db + 1;
    }
    GapToAncestor(parents, a, depth[x]);
    GapIsDistance(parents, a, b);
    hops := depth[x] + db;
  }

  /** The distance is symmetric, and zero only between a joint and itself. */
  lemma DistanceIsMetric(parents: seq<nat>, a: nat, b: nat, m: nat, n: nat)
    requires IsTree(parents) && a < |parents| && b < |parents|
    requires IsDistance(parents, a, b, m) && IsDistance(parents, b, a, n)
    ensures m == n && (m == 0 <==> a == b)
  {
    GapIsDistance(parents, a, b);
    GapIsDistance(parents, b, a);
    GapSymmetric(parents, a, b);
    DistanceUnique(parents, a, b, m, Gap(parents, a, b));
    DistanceUnique(parents, b, a, n, Gap(parents, b, a));
  }

  lemma DistanceUnique(parents: seq<nat>, a: nat, b: nat, m: nat, n: nat)
    requires IsDistance(parents, a, b, m) && IsDistance(parents, a, b, n)
    ensures m == n
  {
  }

  // --------------------------------------------------------------------------- the filter

  /** A collision pair: each geometry's joint, and whether it is a protruding wire box. */
  datatype Geometry = Geometry(joint: nat, wireBox: bool, onArm: bool)

  /** _struct_neighbor: fewer than minHops links apart, or the same joint if a wire box is involved. */
  method StructNeighbor(parents: seq<nat>, g: Geometry, h: Geometry, minHops: nat) returns (near: bool)
    requires IsTree(parents) && g.joint < |parents| && h.joint < |parents|
    ensures near <==> Dropped(parents, g, h, minHops)
  {
    if !(g.onArm && h.onArm) {
      return false;
    }
    if g.wireBox || h.wireBox {
      return g.joint == h.joint;
    }
    var hops := Hops(parents, g.joint, h.joint);
    near := hops < minHops;
    if near {
      assert exists n: nat | n < minHops :: IsDistance(parents, g.joint, h.joint, n);
    } else {
      forall n: nat | IsDistance(parents, g.joint, h.joint, n) ensures n >= minHops {
        DistanceUnique(parents, g.joint, h.joint, n, hops);
      }
    }
  }

  ghost predicate Dropped(parents: seq<nat>, g: Geometry, h: Geometry, minHops: nat) {
    && g.onArm && h.onArm
    && if g.wireBox || h.wireBox then g.joint == h.joint
       else exists n: nat | n < minHops :: IsDistance(parents, g.joint, h.joint, n)
  }

  /** The filter does not depend on which of the two comes first. */
  lemma DroppedSymmetric(parents: seq<nat>, g: Geometry, h: Geometry, minHops: nat)
    requires IsTree(parents) && g.joint < |parents| && h.joint < |parents|
    ensures Dropped(parents, g, h, minHops) <==> Dropped(parents, h, g, minHops)
  {
    hide IsDistance;
    var a, b := g.joint, h.joint;
    GapIsDistance(parents, a, b);
    GapIsDistance(parents, b, a);
    GapSymmetric(parents, a, b);
    forall m: nat | IsDistance(parents, a, b, m) ensures m == Gap(parents, a, b) {
      DistanceUnique(parents, a, b, m, Gap(parents, a, b));
    }
    forall m: nat | IsDistance(parents, b, a, m) ensures m == Gap(parents, b, a) {
      DistanceUnique(parents, b, a, m, Gap(parents, b, a));
    }
  }
}
