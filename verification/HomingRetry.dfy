// The follower's homing loop: plan, run, settle, measure again, with a cushion that only relaxes when an
// attempt bought nothing.
module HomingRetry {
  import opened Options
  import opened SegmentFeed

  /**
   What one round meets: the link, the measured gap to home, whether the total time is up, whether the search
   finds a plan and whether it is a complete one, how running it ends, the errors measured while it settles,
   how far the arm moved.
   */
  datatype Round = Round(
    connected: bool, gap: real, late: bool, plan: Option<bool>, status: Status, errs: seq<real>, moved: real)

  datatype Config = Config(
    attempts: nat, nScales: nat, homeInLimits: bool, approachTol: real, doneTol: real, settleTol: real,
    rounds: nat -> Round)

  datatype Outcome = Home | NotHome | Impossible | NotDriven | Exhausted

  // -------------------------------------------------------------------- one round, in itself

  predicate Arrives(errs: seq<real>, tol: real) {
    exists e | e in errs :: e <= tol
  }

  /** A complete plan ran to its end and the arm settled close by, but not home. */
  predicate RanButShort(c: Config, r: Round) {
    r.plan == Some(true) && r.status == Done && r.errs != [] && r.errs[|r.errs| - 1] <= c.settleTol
  }

  /** How a round ends the loop by itself, if it does. */
  function Ends(c: Config, r: Round): Option<Outcome> {
    if !r.connected then Some(NotHome)
    else if r.gap <= c.doneTol then Some(Home)
    else if r.late then Some(Exhausted)
    else if r.plan.None? then None
    else if Arrives(r.errs, c.doneTol) then Some(Home)
    else if RanButShort(c, r) then Some(NotHome)
    else None
  }

  /** A plan was run and the arm did not answer. */
  predicate Silent(c: Config, r: Round) {
    Ends(c, r).None? && r.plan.Some? && r.moved < 0.02
  }

  function Silents(c: Config, n: nat): nat {
    if n == 0 then 0 else Silents(c, n - 1) + if Silent(c, c.rounds(n - 1)) then 1 else 0
  }

  // ------------------------------------------------------------------------ the cushion tiers

  /** min(min_scale + 1, n_scales - 1). */
  function Relax(tier: nat, nScales: nat): nat
    requires nScales > 0
  {
    if tier + 1 < nScales then tier + 1 else nScales - 1
  }

  /** Round k brought the arm less than 0.02 closer than round k - 1. */
  predicate BoughtNothing(c: Config, k: nat) {
    k > 0 && c.rounds(k).gap > c.rounds(k - 1).gap - 0.02
  }

  /** The tier a search in round k may start from. */
  function TierAt(c: Config, k: nat): nat
    requires c.nScales > 0
  {
    if k == 0 then 0
    else
      var t := TierAt(c, k - 1);
      var u := if c.rounds(k - 1).plan.None? then Relax(t, c.nScales) else t;
      if BoughtNothing(c, k) then Relax(u, c.nScales) else u
  }

  /** The tier is always a valid one. */
  lemma {:induction false} TierValid(c: Config, k: nat)
    requires c.nScales > 0
    ensures TierAt(c, k) < c.nScales
  {
    if k > 0 {
      TierValid(c, k - 1);
    }
  }

  /** Searches never tighten the cushion; two in a row at the same unsaturated tier are 0.02 apart, downward. */
  lemma TiersOnlyRelax(c: Config, k: nat)
    requires c.nScales > 0
    ensures TierAt(c, k) <= TierAt(c, k + 1) < c.nScales
    ensures TierAt(c, k) == TierAt(c, k + 1) < c.nScales - 1 ==> c.rounds(k + 1).gap <= c.rounds(k).gap - 0.02
  {
    TierValid(c, k);
    TierValid(c, k + 1);
  }

  /** A search starts one tier further on for an empty search before it and one for a round not 0.02 closer, up to the last. */
  lemma TierSays(c: Config, k: nat)
    requires c.nScales > 0
    ensures TierAt(c, 0) == 0
    ensures var on := (if c.rounds(k).plan.None? then 1 else 0) + (if c.rounds(k).gap - c.rounds(k + 1).gap < 0.02 then 1 else 0);
            TierAt(c, k + 1) == if TierAt(c, k) + on < c.nScales then TierAt(c, k) + on else c.nScales - 1
  {
    TierValid(c, k);
  }

  /** Two tiers at once are lost exactly when a search finds nothing and the next round is not 0.02 closer. */
  lemma EmptySearchSkipsATier(c: Config, k: nat)
    requires c.nScales > 0 && TierAt(c, k) + 2 < c.nScales
    ensures TierAt(c, k + 1) == TierAt(c, k) + 2 <==> c.rounds(k).plan.None? && c.rounds(k + 1).gap > c.rounds(k).gap - 0.02
  {
  }

  // ---------------------------------------------------------------------------- the loop

  function Max1(n: nat): nat {
    if n > 1 then n else 1
  }

  /** No round so far ended the loop, and at most one was silent. */
  ghost predicate Going(c: Config, n: nat) {
    (forall k: nat | k < n :: Ends(c, c.rounds(k)).None?) && Silents(c, n) <= 1
  }

  /** The first round that ends the loop decides; so does a second silent one; so does the last. */
  ghost predicate Decided(c: Config, used: nat, o: Outcome) {
    && 1 <= used <= Max1(c.attempts)
    && Going(c, used - 1)
    && match Ends(c, c.rounds(used - 1))
       case Some(x) => o == x
       case None =>
         if Silents(c, used) == 2 then o == NotDriven
         else used == Max1(c.attempts) && o == Exhausted
  }

  /** How a whole run ends, from the first measured gap: at once, or as its rounds decide. */
  ghost predicate Ended(c: Config, first: real, used: nat, o: Outcome) {
    if first <= c.approachTol then o == Home && used == 0
    else if !c.homeInLimits then o == Impossible && used == 0
    else Decided(c, used, o)
  }

  /** _settle: the first error within the tolerance, or the last one seen, if any was. */
  method Settle(errs: seq<real>, tol: real) returns (arrived: bool, err: Option<real>)
    ensures arrived <==> Arrives(errs, tol)
    ensures arrived ==> err.Some? && err.value <= tol && err.value in errs
    ensures !arrived ==> err == if errs == [] then None else Some(errs[|errs| - 1])
  {
    var i := 0;
    err := None;
    while i < |errs|
      invariant 0 <= i <= |errs|
      invariant forall k | 0 <= k < i :: errs[k] > tol
      invariant err == if i == 0 then None else Some(errs[i - 1])
    {
      err := Some(errs[i]);
      if errs[i] <= tol {
        assert errs[i] in errs;
        return true, err;
      }
      i := i + 1;
    }
    arrived := false;
  }

  /** _go_home, from the first measured gap: how it ends, in how many rounds, and the tier of every search. */
  method GoHome(c: Config, first: real) returns (o: Outcome, used: nat, tiers: seq<nat>)
    requires c.nScales > 0
    ensures Ended(c, first, used, o)
    ensures |tiers| <= used <= |tiers| + 1 && forall k | 0 <= k < |tiers| :: tiers[k] == TierAt(c, k)
  {
    hide RanButShort, Arrives, Going, Decided, Silents, TierAt;
    used, tiers := 0, [];
    if first <= c.approachTol {
      return Home, used, tiers;
    }
    if !c.homeInLimits {
      return Impossible, used, tiers;
    }
    var attempts := Max1(c.attempts);
    var minScale, prevGap: Option<real>, frozen := 0, None, 0;
    FirstTier(c);
    for attempt := 0 to attempts
      invariant used == attempt == |tiers| && Going(c, attempt) && frozen == Silents(c, attempt) <= 1
      invariant prevGap == if attempt == 0 then None else Some(c.rounds(attempt - 1).gap)
      invariant minScale == TierAfter(c, attempt)
      invariant forall k | 0 <= k < |tiers| :: tiers[k] == TierAt(c, k)
    {
      var round := c.rounds(attempt);
      used := attempt + 1;
      RoundEnds(c, attempt);
      TierSteps(c, attempt);
      if !round.connected {
        return NotHome, used, tiers;
      }
      if round.gap <= c.doneTol {
        return Home, used, tiers;
      }
      if prevGap.Some? && round.gap > prevGap.value - 0.02 {
        minScale := Relax(minScale, c.nScales);
      }
      prevGap := Some(round.gap);
      if round.late {
        return Exhausted, used, tiers;
      }
      tiers := tiers + [minScale];
      if round.plan.None? {
        minScale := Relax(minScale, c.nScales);
        continue;
      }
      var arrived, err := Settle(round.errs, c.doneTol);
      if arrived {
        return Home, used, tiers;
      }
      ShortOf(c, round);
      if round.plan.value && round.status == Done && err.Some? && err.value <= c.settleTol {
        return NotHome, used, tiers;
      }
      if round.moved < 0.02 {
        frozen := frozen + 1;
        if frozen >= 2 {
          return NotDriven, used, tiers;
        }
      }
    }
    o := Exhausted;
    AttemptsSpent(c);
  }

  /** min_scale between two rounds: what the last search leaves behind. */
  function TierAfter(c: Config, n: nat): nat
    requires c.nScales > 0
  {
    if n > 0 && c.rounds(n - 1).plan.None? then Relax(TierAt(c, n - 1), c.nScales)
    else if n > 0 then TierAt(c, n - 1) else 0
  }

  lemma FirstTier(c: Config)
    requires c.nScales > 0
    ensures Going(c, 0) && Silents(c, 0) == 0 && TierAfter(c, 0) == 0
  {
  }

  lemma TierSteps(c: Config, n: nat)
    requires c.nScales > 0
    ensures TierAt(c, n) == if BoughtNothing(c, n) then Relax(TierAfter(c, n), c.nScales) else TierAfter(c, n)
  {
  }

  /** How the loop stands after one more round. */
  lemma RoundEnds(c: Config, n: nat)
    requires Going(c, n) && n < Max1(c.attempts)
    ensures Ends(c, c.rounds(n)).Some? ==> Decided(c, n + 1, Ends(c, c.rounds(n)).value)
    ensures Ends(c, c.rounds(n)).None? ==>
              && Silents(c, n + 1) == Silents(c, n) + (if Silent(c, c.rounds(n)) then 1 else 0)
              && if Silents(c, n + 1) == 2 then Decided(c, n + 1, NotDriven) else Going(c, n + 1)
  {
  }

  lemma AttemptsSpent(c: Config)
    requires Going(c, Max1(c.attempts))
    ensures Decided(c, Max1(c.attempts), Exhausted)
  {
    assert Silents(c, Max1(c.attempts) - 1) <= Silents(c, Max1(c.attempts));
  }

  lemma ShortOf(c: Config, r: Round)
    ensures RanButShort(c, r) <==>
              r.plan == Some(true) && r.status == Done && r.errs != [] && r.errs[|r.errs| - 1] <= c.settleTol
  {
  }

  // -------------------------------------------------------------------- what an outcome means

  /** The run measured a gap, or an error while settling, within the tolerance, and ended on it. */
  ghost predicate MeasuredHome(c: Config, first: real, used: nat) {
    if used == 0 then first <= c.doneTol
    else c.rounds(used - 1).gap <= c.doneTol || Arrives(c.rounds(used - 1).errs, c.doneTol)
  }

  /**
   True means "inside HOME_DONE_TOL" of every run exactly when the approach tolerance, within which the first
   check already returns True, is no larger.
   */
  lemma HomeMeansMeasuredHome(c: Config)
    ensures (forall first: real, used: nat | Ended(c, first, used, Home) :: MeasuredHome(c, first, used))
            <==> c.approachTol <= c.doneTol
  {
    hide Decided;
    if c.approachTol <= c.doneTol {
      forall first: real, used: nat | Ended(c, first, used, Home) ensures MeasuredHome(c, first, used) {
        if first > c.approachTol {
          RoundsMeasureHome(c, first, used);
        }
      }
    } else {
      assert Ended(c, c.approachTol, 0, Home) && !MeasuredHome(c, c.approachTol, 0);
    }
  }

  lemma RoundsMeasureHome(c: Config, first: real, used: nat)
    requires Decided(c, used, Home)
    ensures MeasuredHome(c, first, used)
  {
  }

  /** Not home, on time, and no error within the tolerance: a complete plan ran and left the arm close by. */
  predicate LeftShort(c: Config, r: Round) {
    r.gap > c.doneTol && !r.late && !Arrives(r.errs, c.doneTol) && RanButShort(c, r)
  }

  /** False is returned, and nothing raised, exactly when the last round found the link gone or left the arm short. */
  lemma NotHomeExactly(c: Config, first: real, used: nat, o: Outcome)
    requires Ended(c, first, used, o)
    ensures o == NotHome <==> used > 0 && (!c.rounds(used - 1).connected || LeftShort(c, c.rounds(used - 1)))
  {
    hide Arrives, Going;
  }

  lemma {:induction false} SilentRounds(c: Config, n: nat) returns (ks: seq<nat>)
    ensures |ks| == Silents(c, n) && forall i | 0 <= i < |ks| :: ks[i] < n && Silent(c, c.rounds(ks[i]))
    ensures forall i, j | 0 <= i < j < |ks| :: ks[i] < ks[j]
  {
    ks := [];
    if n > 0 {
      ks := SilentRounds(c, n - 1);
      if Silent(c, c.rounds(n - 1)) {
        ks := ks + [n - 1];
      }
    }
  }

  /** "The arm is not being driven" takes two rounds in which a plan was run and the arm stayed put. */
  lemma NotDrivenTwice(c: Config, used: nat) returns (j: nat, k: nat)
    requires Decided(c, used, NotDriven)
    ensures j < k < used && Silent(c, c.rounds(j)) && Silent(c, c.rounds(k))
  {
    var ks := SilentRounds(c, used);
    j, k := ks[0], ks[1];
  }

  // ---------------------------------------------------------------------- how a run goes

  /** A plan was run, and no error within the tolerance was seen while the arm settled. */
  ghost predicate RanShort(c: Config, r: Round) {
    r.plan.Some? && forall e | e in r.errs :: e > c.doneTol
  }

  /** The plan was a complete one, it ran to its end, and the last error seen is small. */
  ghost predicate LeftClose(c: Config, r: Round) {
    RanShort(c, r) && r.plan.value && r.status == Done && r.errs != [] && r.errs[|r.errs| - 1] <= c.settleTol
  }

  /** The arm is connected and short of home, in time, and the plan, if one was found, neither got it home nor left it close. */
  ghost predicate GoesOn(c: Config, r: Round) {
    r.connected && r.gap > c.doneTol && !r.late && (r.plan.Some? ==> RanShort(c, r) && !LeftClose(c, r))
  }

  /** And it moved less than 0.02. */
  ghost predicate StoodStill(c: Config, r: Round) {
    GoesOn(c, r) && r.plan.Some? && r.moved < 0.02
  }

  /**
   A run that gets past its first check, in plain terms. Every round before the last goes on, and in at most one of
   them the arm stood still. The last round is home if it starts there or its plan gets there; it gives up if the
   link is gone or the arm is left close by, if the arm stood still a second time, or if time or attempts are spent.
   */
  lemma RunSays(c: Config, used: nat, o: Outcome)
    requires Decided(c, used, o)
    ensures 1 <= used && (used <= c.attempts || used == 1)
    ensures forall k: nat | k < used - 1 :: GoesOn(c, c.rounds(k))
    ensures forall j: nat, k: nat | j < k < used - 1 :: !StoodStill(c, c.rounds(j)) || !StoodStill(c, c.rounds(k))
    ensures var r := c.rounds(used - 1);
            var again := StoodStill(c, r) && exists j: nat | j < used - 1 :: StoodStill(c, c.rounds(j));
            && (o == Home <==> r.connected && (r.gap <= c.doneTol || (!r.late && r.plan.Some? && exists e | e in r.errs :: e <= c.doneTol)))
            && (o == NotHome <==> !r.connected || (r.gap > c.doneTol && !r.late && LeftClose(c, r)))
            && (o == NotDriven <==> again)
            && (o == Exhausted <==> (r.connected && r.gap > c.doneTol && r.late) || (GoesOn(c, r) && !again && used >= c.attempts))
            && o != Impossible
  {
    forall k: nat ensures Ends(c, c.rounds(k)).None? <==> GoesOn(c, c.rounds(k))
                  ensures Silent(c, c.rounds(k)) <==> StoodStill(c, c.rounds(k)) {
    }
    StillOnce(c, used - 1);
    hide GoesOn, StoodStill, Ends, Silent;
    LastSays(c, c.rounds(used - 1));
  }

  lemma LastSays(c: Config, r: Round)
    ensures Ends(c, r).None? <==> GoesOn(c, r)
    ensures Silent(c, r) <==> StoodStill(c, r)
    ensures Ends(c, r) == Some(Home) <==>
              r.connected && (r.gap <= c.doneTol || (!r.late && r.plan.Some? && exists e | e in r.errs :: e <= c.doneTol))
    ensures Ends(c, r) == Some(NotHome) <==> !r.connected || (r.gap > c.doneTol && !r.late && LeftClose(c, r))
    ensures Ends(c, r) == Some(Exhausted) <==> r.connected && r.gap > c.doneTol && r.late
    ensures Ends(c, r) != Some(NotDriven) && Ends(c, r) != Some(Impossible)
  {
  }

  lemma {:induction false} StillOnce(c: Config, n: nat)
    ensures Silents(c, n) <= 1 ==> forall j: nat, k: nat | j < k < n :: !Silent(c, c.rounds(j)) || !Silent(c, c.rounds(k))
    ensures Silents(c, n) == 0 <==> forall j: nat | j < n :: !Silent(c, c.rounds(j))
  {
    hide Silent;
    if n > 0 {
      StillOnce(c, n - 1);
    }
  }
}
