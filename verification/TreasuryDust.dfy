/** The bound on claims is exact: for every number of late stakes a run reaches it, so claims stay within the attributed
    rewards exactly while at most one stake was late. */
module TreasuryDust {
  import opened Arith
  import opened Results
  import opened Ledger
  import opened Staking
  import opened TreasurySpec
  import opened TreasuryBacking
  import opened TreasuryRuns
  import opened TreasuryScenes

  /** More late stakes of one unit each than the vault can hold beside the first holder are not in the family. */
  const MOST_LATE: nat := U128_MAX - SCALE - 1

  // ---- the family: one holder, rewards just short of a unit a share, then `n` late stakes of one unit ----------

  /** A first holder of `SCALE` shares and `n` late ones of a share each, floored checkpoints and all. */
  function Holders(n: nat): map<nat, Record> {
    if n == 0 then map[0 := Holder(SCALE)] else Holders(n - 1)[n := Holder(1)]
  }

  function Holder(shares: nat): Record {
    Record(0, shares, 0, 0, 0, 0, 1, Active)
  }

  lemma {:induction false} NoMoreHolders(n: nat, i: nat)
    requires n < i
    ensures i !in Holders(n)
  {
    if n > 0 {
      NoMoreHolders(n - 1, i);
    }
  }

  function Held(n: nat, perShare: nat, accounted: nat, lnrg: nat): Treasury {
    Treasury(CONFIG, Holders(n), SCALE + n, perShare, accounted, TERMS, [], true, true, [], SCALE + 1 + n, lnrg,
             Some(Stake(SCALE + n, [], false, [])), 0, 0, {}, true)
  }

  /** The run to `n` late stakes. */
  function LateCalls(n: nat): seq<Call> {
    if n == 0 then [] + [FeeNoted(0, SCALE + 1)] + [StakeCall(0)] + [Rewarded(SCALE - 1)]
    else LateCalls(n - 1) + [FeeNoted(n, 1)] + [StakeCall(n)]
  }

  function Start(): Treasury {
    Genesis(CONFIG, TERMS, 0, 0)
  }

  lemma FirstHolder()
    ensures Run(Start(), LateCalls(0)) == Held(0, 0, 0, SCALE - 1)
    ensures RunFits(Start(), LateCalls(0)) && LateStakes(Start(), LateCalls(0)) == 0
  {
    var c0: seq<Call> := [];
    var c1 := c0 + [FeeNoted(0, SCALE + 1)];
    var c2 := c1 + [StakeCall(0)];
    RunOneMore(Start(), c0, FeeNoted(0, SCALE + 1));
    FirstFee(Start(), 0, SCALE + 1);
    var t1 := Run(Start(), c1);
    RunOneMore(Start(), c1, StakeCall(0));
    FirstStake(t1, 0, SCALE, 0);
    var t2 := Run(Start(), c2);
    assert t2.recs == Holders(0);
    RunOneMore(Start(), c2, Rewarded(SCALE - 1));
  }

  /** One more late stake of one unit: its checkpoint floors away all but a unit of `SCALE`. */
  lemma OneMoreLate(n: nat, perShare: nat, accounted: nat)
    requires n < MOST_LATE
    requires (n == 0 && perShare == accounted == 0) || perShare == accounted == SCALE - 1
    ensures var t := Held(n, perShare, accounted, SCALE - 1);
            var t1 := Step(t, FeeNoted(n + 1, 1));
            && Step(t1, StakeCall(n + 1)) == Held(n + 1, SCALE - 1, SCALE - 1, SCALE - 1)
            && Fits(t1, StakeCall(n + 1)) && LateOf(t1, StakeCall(n + 1)) == 1
  {
    var t := Held(n, perShare, accounted, SCALE - 1);
    NoMoreHolders(n, n + 1);
    NewFee(t, n + 1, 1);
    var t1 := Step(t, FeeNoted(n + 1, 1));
    HarvestsBelowOne(t1);
    OneForOne(SCALE + n);
    assert Amounts([]) == 0;
    FirstStake(t1, n + 1, 1, 0);
    assert Step(t1, StakeCall(n + 1)).recs == Holders(n + 1);
  }

  lemma RunOneMoreLate(calls: seq<Call>, n: nat, perShare: nat, accounted: nat)
    requires n < MOST_LATE
    requires (n == 0 && perShare == accounted == 0) || perShare == accounted == SCALE - 1
    requires Run(Start(), calls) == Held(n, perShare, accounted, SCALE - 1)
    requires RunFits(Start(), calls) && LateStakes(Start(), calls) == n
    ensures var more := calls + [FeeNoted(n + 1, 1)] + [StakeCall(n + 1)];
            && Run(Start(), more) == Held(n + 1, SCALE - 1, SCALE - 1, SCALE - 1)
            && RunFits(Start(), more) && LateStakes(Start(), more) == n + 1
  {
    OneMoreLate(n, perShare, accounted);
    RunOneMore(Start(), calls, FeeNoted(n + 1, 1));
    RunOneMore(Start(), calls + [FeeNoted(n + 1, 1)], StakeCall(n + 1));
  }

  lemma OneForOne(m: nat)
    requires 0 < m
    ensures 1 * m / m == 1
  {
  }

  lemma HarvestsBelowOne(t: Treasury)
    requires t.lnrg == SCALE - 1
    requires (t.totalShares == SCALE && t.perShare == t.accounted == 0)
             || t.perShare == t.accounted == SCALE - 1
    ensures Harvest(t) == Ok(t.(perShare := SCALE - 1, accounted := SCALE - 1))
  {
  }

  lemma {:induction false} LateHolders(n: nat)
    requires 0 < n <= MOST_LATE
    ensures Run(Start(), LateCalls(n)) == Held(n, SCALE - 1, SCALE - 1, SCALE - 1)
    ensures RunFits(Start(), LateCalls(n)) && LateStakes(Start(), LateCalls(n)) == n
  {
    if n == 1 {
      FirstHolder();
      RunOneMoreLate(LateCalls(0), 0, 0, 0);
    } else {
      LateHolders(n - 1);
      RunOneMoreLate(LateCalls(n - 1), n - 1, SCALE - 1, SCALE - 1);
    }
  }

  // ---- the last unit a share --------------------------------------------------------------

  /** Rewards that bring the accumulator to a whole unit a share. */
  function LastReward(n: nat): nat {
    1 + CeilDiv(n, SCALE)
  }

  lemma LastHarvest(n: nat)
    requires n <= MOST_LATE
    ensures LastReward(n) * SCALE / (SCALE + n) == 1 && SCALE - 1 + LastReward(n) <= U128_MAX
  {
    CeilBounds(n, SCALE);
    FloorIff(LastReward(n) * SCALE, SCALE + n, 1);
    FloorIff(LastReward(n) * SCALE, SCALE + n, 2);
    CeilIff(n, SCALE, U128_MAX - SCALE);
  }

  function FullCalls(n: nat): seq<Call> {
    LateCalls(n) + [Rewarded(LastReward(n))] + [HarvestCallNow]
  }

  lemma FullRun(n: nat)
    requires 0 < n <= MOST_LATE
    ensures var all := SCALE - 1 + LastReward(n); Run(Start(), FullCalls(n)) == Held(n, SCALE, all, all)
    ensures RunFits(Start(), FullCalls(n)) && LateStakes(Start(), FullCalls(n)) == n
  {
    LateHolders(n);
    LastSteps(n);
    RunOneMore(Start(), LateCalls(n), Rewarded(LastReward(n)));
    RunOneMore(Start(), LateCalls(n) + [Rewarded(LastReward(n))], HarvestCallNow);
  }

  lemma LastSteps(n: nat)
    requires n <= MOST_LATE
    ensures var t, all := Held(n, SCALE - 1, SCALE - 1, SCALE - 1), SCALE - 1 + LastReward(n);
            Step(Step(t, Rewarded(LastReward(n))), HarvestCallNow) == Held(n, SCALE, all, all)
  {
    LastHarvest(n);
  }

  /** Every share is worth a whole unit then. */
  lemma {:induction false} HolderClaims(n: nat)
    ensures Total(Claimables(Holders(n), SCALE)) == SCALE + n
  {
    if n == 0 {
      var none: map<nat, nat> := map[];
      TotalSet(none, 0, SCALE);
      assert Claimables(Holders(0), SCALE) == none[0 := SCALE];
    } else {
      HolderClaims(n - 1);
      NoMoreHolders(n - 1, n);
      TotalSet(Claimables(Holders(n - 1), SCALE), n, 1);
      OneMoreClaim(Holders(n - 1), n);
    }
  }

  lemma OneMoreClaim(recs: map<nat, Record>, id: nat)
    ensures Claimables(recs[id := Holder(1)], SCALE) == Claimables(recs, SCALE)[id := 1]
  {
    assert ClaimableOf(SCALE, Holder(1)) == 1;
  }

  lemma DustIs(n: nat)
    ensures Dust(n) == n - CeilDiv(n, SCALE)
  {
    CeilBounds(n, SCALE);
    assert n * (SCALE - 1) == n * SCALE - n;
    var d := n - CeilDiv(n, SCALE);
    FloorIff(n * (SCALE - 1), SCALE, d);
    FloorIff(n * (SCALE - 1), SCALE, d + 1);
  }

  // ---- the bound is exact -------------------------------------------------------------------

  ghost function Claims(t: Treasury): nat {
    Total(Claimables(t.recs, t.perShare))
  }

  /** For every number of late stakes a run from an empty treasury, nothing saturating, reaches the bound exactly. */
  lemma DustIsReached(n: nat)
    requires n <= MOST_LATE
    ensures exists calls: seq<Call> ::
              && RunFits(Start(), calls) && LateStakes(Start(), calls) == n
              && Claims(Run(Start(), calls)) == Run(Start(), calls).accounted + Dust(n)
  {
    if n == 0 {
      var none: seq<Call> := [];
      assert Claimables(map[], 0) == map[];
      assert RunFits(Start(), none) && Claims(Run(Start(), none)) == 0;
    } else {
      FullRun(n);
      HolderClaims(n);
      DustIs(n);
      assert RunFits(Start(), FullCalls(n));
    }
  }

  /** Two late stakes and a claim on one unit more than is attributed. */
  lemma ClaimsExceedAccounted()
    ensures exists calls: seq<Call> ::
              && RunFits(Start(), calls) && LateStakes(Start(), calls) == 2
              && Claims(Run(Start(), calls)) == Run(Start(), calls).accounted + 1
  {
    DustIs(2);
    DustIsReached(2);
    var calls: seq<Call> :|
      && RunFits(Start(), calls) && LateStakes(Start(), calls) == 2
      && Claims(Run(Start(), calls)) == Run(Start(), calls).accounted + Dust(2);
  }

  /** An empty treasury: its constants and terms are in bounds, and it may have been sent anything. */
  predicate Empty(c: Config, terms: TreasurySpec.Terms, vtrs: nat, lnrg: nat) {
    c.rules.minCoopBond > 0 && TermsInBounds(terms) && vtrs <= U128_MAX && lnrg <= U128_MAX
  }

  /** Over every run from an empty treasury in which nothing saturates and at most `n` stakes are late, claims stay
      within the attributed rewards and `k` more. */
  ghost predicate NeverAbove(n: nat, k: nat) {
    forall c, terms, vtrs, lnrg, calls ::
      Empty(c, terms, vtrs, lnrg) && RunFits(Genesis(c, terms, vtrs, lnrg), calls)
      && LateStakes(Genesis(c, terms, vtrs, lnrg), calls) <= n ==>
        var e := Run(Genesis(c, terms, vtrs, lnrg), calls); Claims(e) <= e.accounted + k
  }

  lemma DustGrows(n: nat, m: nat)
    requires n <= m
    ensures Dust(n) <= Dust(m)
  {
    MulMono(n, m, SCALE - 1);
    FloorMono(n * (SCALE - 1), m * (SCALE - 1), SCALE);
  }

  lemma DustIsEnough(n: nat, k: nat)
    requires Dust(n) <= k
    ensures NeverAbove(n, k)
  {
    forall c, terms, vtrs, lnrg, calls |
      Empty(c, terms, vtrs, lnrg) && RunFits(Genesis(c, terms, vtrs, lnrg), calls)
      && LateStakes(Genesis(c, terms, vtrs, lnrg), calls) <= n
      ensures var e := Run(Genesis(c, terms, vtrs, lnrg), calls); Claims(e) <= e.accounted + k
    {
      ClaimsOverRuns(c, terms, vtrs, lnrg, calls);
      DustGrows(LateStakes(Genesis(c, terms, vtrs, lnrg), calls), n);
    }
  }

  lemma DustIsNeeded(n: nat, late: nat, k: nat)
    requires NeverAbove(n, k) && late <= n && late <= MOST_LATE
    ensures Dust(late) <= k
  {
    DustIsReached(late);
    var calls: seq<Call> :|
      && RunFits(Start(), calls) && LateStakes(Start(), calls) == late
      && Claims(Run(Start(), calls)) == Run(Start(), calls).accounted + Dust(late);
    assert Empty(CONFIG, TERMS, 0, 0);
  }

  /** The late stakes' dust is the least bound there is. */
  lemma NeverAboveIff(n: nat, k: nat)
    requires n <= MOST_LATE
    ensures NeverAbove(n, k) <==> Dust(n) <= k
  {
    if NeverAbove(n, k) {
      DustIsNeeded(n, n, k);
    }
    if Dust(n) <= k {
      DustIsEnough(n, k);
    }
  }

  /** Claims stay within the attributed rewards, as documented, exactly while at most one stake is late. */
  lemma WithinAccountedIff(n: nat)
    ensures NeverAbove(n, 0) <==> n <= 1
  {
    DustIs(2);
    if n <= 1 {
      DustIsEnough(n, 0);
    } else if NeverAbove(n, 0) {
      DustIsNeeded(n, 2, 0);
    }
  }
}
