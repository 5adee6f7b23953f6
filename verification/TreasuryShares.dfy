/** Shares of the pooled stake: what one launch does never costs another, but for the deposit an unbonding sweeps. */
module TreasuryShares {
  import opened Arith
  import opened Results
  import opened Ledger
  import opened Staking
  import opened TreasurySpec
  import opened TreasurySolvency
  import opened TreasuryBacking

  // ---- the price of a share -----------------------------------------------------------

  lemma WorthBelow(s: nat, t: nat, a: nat)
    ensures Worth(s, t, a) * t <= s * a
  {
    if t > 0 {
      FloorBounds(s * a, t);
    }
  }

  lemma CrossArith(u: nat, m: nat, a: nat, d: nat, t: nat, o: nat)
    requires 0 < a && m * a <= d * t && u * t <= o * a
    ensures u * m <= o * d
  {
    MulMono(m * a, d * t, u);
    MulMono(u * t, o * a, d);
    assert u * (m * a) == u * m * a;
    assert u * (d * t) == d * (u * t);
    assert d * (o * a) == o * d * a;
    MulCancel(u * m, o * d, a);
  }

  /** Shares minted at or above the price do not lower anyone's value. */
  lemma MintKeepsPrice(o: nat, a: nat, t: nat, d: nat, m: nat)
    requires 0 < t && 0 < a && m * a <= d * t
    ensures Worth(o, t, a) <= Worth(o, t + m, a + d)
  {
    var u := o * a / t;
    FloorBounds(o * a, t);
    CrossArith(u, m, a, d, t, o);
    assert u * (t + m) == u * t + u * m;
    assert o * (a + d) == o * a + o * d;
    FloorIff(o * (a + d), t + m, u);
  }

  lemma RedeemArith(u: nat, o: nat, a: nat, t: nat, s: nat, v: nat)
    requires 0 < t && s <= t && v <= a && v * t <= s * a && u * t <= o * a
    ensures u * (t - s) <= o * (a - v)
  {
    MulMono(u * t, o * a, t - s);
    assert u * t * (t - s) == u * (t - s) * t;
    assert o * a * (t - s) == o * (a * t - s * a);
    assert (a - v) * t == a * t - v * t;
    MulMono(a * t - s * a, (a - v) * t, o);
    assert o * ((a - v) * t) == o * (a - v) * t;
    MulCancel(u * (t - s), o * (a - v), t);
  }

  /** Shares redeemed at or below the price do not lower anyone's value. */
  lemma RedeemKeepsPrice(o: nat, a: nat, t: nat, s: nat, v: nat)
    requires s < t && v <= a && v * t <= s * a
    ensures Worth(o, t, a) <= Worth(o, t - s, a - v)
  {
    var u := o * a / t;
    FloorBounds(o * a, t);
    RedeemArith(u, o, a, t, s, v);
    FloorIff(o * (a - v), t - s, u);
  }

  // ---- stake --------------------------------------------------------------------------------

  /** Without shares nothing is staked. */
  predicate StakeOwned(t: Treasury) {
    t.totalShares == 0 ==> ActiveOf(t.stake) == 0
  }

  /** What a stake of `id` does to the pool: its pending joins the stake, and the shares for it are minted. */
  predicate Joined(t: Treasury, t': Treasury, id: nat) {
    && id in t.recs && id in t'.recs && SharesFor(t.recs[id].pending, t.totalShares, ActiveOf(t.stake)).Ok?
    && var d, s := t.recs[id].pending, t.recs[id].shares;
       var m := SharesFor(d, t.totalShares, ActiveOf(t.stake)).value;
       && ActiveOf(t'.stake) == ActiveOf(t.stake) + d && t'.totalShares == t.totalShares + Added(s, m)
       && t'.recs == t.recs[id := t'.recs[id]] && t'.recs[id].shares == s + Added(s, m) && Added(s, m) <= m
       && (Added(s, m) < m ==> s == t.totalShares)
       && 0 < d <= U128_MAX && (t.totalShares != 0 ==> ActiveOf(t.stake) != 0)
  }

  lemma StakeJoins(t: Treasury, id: nat)
    requires Solvent(t) && SharesOk(t) && Roomy(t, id) && StakePending(t, id).Ok?
    ensures Joined(t, StakePending(t, id).value, id)
  {
    StakeIsBond(t, id);
    HarvestSolvent(t);
    var t1 := Harvest(t).value;
    var rec := Settle(t1.perShare, t.recs[id]).value;
    RecordReserved(t1, id);
    BondPendingIs(t1, id, rec);
    BondTakesAll(t1, rec.pending);
    var m := SharesFor(rec.pending, t.totalShares, ActiveOf(t.stake)).value;
    AtMostSum(t.recs, id, Shares);
    RetargetKeepsTotals(Bonded(t1, id, Minted(t1.perShare, rec, 0, m).value, m, BondMore(t1, rec.pending).value));
  }

  lemma SharesForBounds(d: nat, t: nat, a: nat)
    requires SharesFor(d, t, a).Ok? && 0 < t && 0 < a
    ensures SharesFor(d, t, a).value * a <= d * t
  {
    FloorBounds(d * t, a);
  }

  lemma FairMint(o: nat, t: nat, a: nat, d: nat, m: nat)
    requires SharesFor(d, t, a).Ok? && m <= SharesFor(d, t, a).value && (t != 0 ==> a != 0)
    ensures Worth(o, t, a) <= Worth(o, t + m, a + d)
  {
    if t > 0 {
      SharesForBounds(d, t, a);
      MulMono(m, SharesFor(d, t, a).value, a);
      MintKeepsPrice(o, a, t, d, m);
    }
  }

  lemma JoiningIsFair(t: Treasury, t': Treasury, id: nat, other: nat)
    requires Joined(t, t', id) && other != id
    ensures StakedValue(t, other) <= StakedValue(t', other)
  {
    if other in t.recs {
      FairMint(t.recs[other].shares, t.totalShares, ActiveOf(t.stake), t.recs[id].pending,
               t'.totalShares - t.totalShares);
    }
  }

  /** A launch's stake never lowers another launch's staked value. */
  lemma StakeIsFair(t: Treasury, id: nat, other: nat)
    requires Solvent(t) && SharesOk(t) && Roomy(t, id) && StakePending(t, id).Ok? && other != id
    ensures StakedValue(t, other) <= StakedValue(StakePending(t, id).value, other)
  {
    StakeJoins(t, id);
    JoiningIsFair(t, StakePending(t, id).value, id, other);
  }

  lemma PayInArith(s: nat, m: nat, a: nat, d: nat, t: nat)
    requires s <= t && m * a <= d * t
    ensures (s + m) * (a + d) * t <= (s * a + d * t) * (t + m)
  {
    MulMono(m * a, d * t, t - s);
    assert (s * a + d * t) * (t + m) - (s + m) * (a + d) * t == d * t * (t - s) - m * a * (t - s);
  }

  lemma JoiningGainsNothing(t: Treasury, t': Treasury, id: nat)
    requires Joined(t, t', id) && StakeOwned(t) && t.recs[id].shares <= t.totalShares
    ensures StakedValue(t', id) <= StakedValue(t, id) + t.recs[id].pending
  {
    OwnWorth(t.recs[id].shares, t.totalShares, ActiveOf(t.stake), t.recs[id].pending, t'.totalShares - t.totalShares);
  }

  /** ... nor does it raise the staking launch's own value by more than it put in. */
  lemma StakeGainsNothing(t: Treasury, id: nat)
    requires Solvent(t) && SharesOk(t) && StakeOwned(t) && Roomy(t, id) && StakePending(t, id).Ok?
    ensures id in t.recs
    ensures StakedValue(StakePending(t, id).value, id) <= StakedValue(t, id) + t.recs[id].pending
  {
    StakeJoins(t, id);
    AtMostSum(t.recs, id, Shares);
    JoiningGainsNothing(t, StakePending(t, id).value, id);
  }

  lemma OwnWorth(s: nat, t: nat, a: nat, d: nat, m: nat)
    requires s <= t && SharesFor(d, t, a).Ok? && m <= SharesFor(d, t, a).value && (t == 0 <==> a == 0)
    requires t == 0 ==> m == d
    ensures Worth(s + m, t + m, a + d) <= Worth(s, t, a) + d
  {
    if t == 0 {
      FirstStakeWorth(d);
    } else {
      SharesForBounds(d, t, a);
      MulMono(m, SharesFor(d, t, a).value, a);
      PayInBound(s, m, a, d, t);
    }
  }

  lemma FirstStakeWorth(d: nat)
    ensures Worth(d, d, d) <= d
  {
    if d > 0 {
      MulDivSelf(d, d);
    }
  }

  lemma MulDivSelf(m: nat, x: nat)
    requires 0 < m
    ensures m * x / m == x
  {
    FloorIff(m * x, m, x);
    FloorIff(m * x, m, x + 1);
    assert (x + 1) * m == m * x + m;
  }

  lemma PayInCross(u: nat, s: nat, m: nat, a: nat, d: nat, t: nat)
    requires 0 < t && s <= t && m * a <= d * t && u * (t + m) <= (s + m) * (a + d)
    ensures u * t <= s * a + d * t
  {
    PayInArith(s, m, a, d, t);
    MulMono(u * (t + m), (s + m) * (a + d), t);
    assert u * (t + m) * t == u * t * (t + m);
    MulCancel(u * t, s * a + d * t, t + m);
  }

  lemma ShiftedFloor(n: nat, t: nat, d: nat, u: nat)
    requires 0 < t && u * t <= n + d * t
    ensures u <= n / t + d
  {
    if u > d {
      assert (u - d) * t == u * t - d * t;
      FloorIff(n, t, u - d);
    }
  }

  lemma PayInFloor(u: nat, s: nat, m: nat, a: nat, d: nat, t: nat)
    requires 0 < t && s <= t && m * a <= d * t && u * (t + m) <= (s + m) * (a + d)
    ensures u <= Worth(s, t, a) + d
  {
    PayInCross(u, s, m, a, d, t);
    ShiftedFloor(s * a, t, d, u);
  }

  lemma PayInBound(s: nat, m: nat, a: nat, d: nat, t: nat)
    requires 0 < t && s <= t && m * a <= d * t
    ensures Worth(s + m, t + m, a + d) <= Worth(s, t, a) + d
  {
    WorthBelow(s + m, t + m, a + d);
    PayInFloor(Worth(s + m, t + m, a + d), s, m, a, d, t);
  }

  /** The mint is the largest that costs nobody: one share more would be worth more than was paid for it. */
  lemma MintIsLargest(d: nat, t: nat, a: nat, m: nat)
    requires 0 < t && 0 < a && SharesFor(d, t, a).Ok?
    ensures m <= SharesFor(d, t, a).value <==> m * a <= d * t
  {
    FloorIff(d * t, a, m);
  }

  lemma NextShareCosts(s: nat, m: nat, a: nat, d: nat, t: nat, c: nat, u: nat)
    requires d * t < m * a + a && u * t <= s * a && a <= c * t
    ensures u + d <= c || (u + d - c) * t <= (s + m) * a
  {
    if c < u + d {
      assert (u + d - c) * t == u * t + d * t - c * t;
      assert (s + m) * a == s * a + m * a;
    }
  }

  lemma WorthIff(s: nat, t: nat, a: nat, x: nat)
    requires 0 < t
    ensures x <= Worth(s, t, a) <==> x * t <= s * a
  {
    FloorIff(s * a, t, x);
  }

  lemma MintMisses(d: nat, t: nat, a: nat)
    requires 0 < t && 0 < a && SharesFor(d, t, a).Ok?
    ensures d * t < SharesFor(d, t, a).value * a + a
  {
    FloorBounds(d * t, a);
  }

  lemma KeptWorth(s: nat, t: nat, a: nat, d: nat)
    requires 0 < t && 0 < a && SharesFor(d, t, a).Ok?
    ensures Worth(s, t, a) + d <= Worth(s + SharesFor(d, t, a).value, t, a) + CeilDiv(a, t)
  {
    CeilBounds(a, t);
    MintMisses(d, t, a);
    WorthBelow(s, t, a);
    KeptBy(s, SharesFor(d, t, a).value, a, d, t, CeilDiv(a, t), Worth(s, t, a));
  }

  lemma KeptBy(s: nat, m: nat, a: nat, d: nat, t: nat, c: nat, u: nat)
    requires 0 < t && d * t < m * a + a && u * t <= s * a && a <= c * t
    ensures u + d <= Worth(s + m, t, a) + c
  {
    NextShareCosts(s, m, a, d, t, c, u);
    if c < u + d {
      WorthIff(s + m, t, a, u + d - c);
    }
  }

  lemma JoiningLosesAtMostAShare(t: Treasury, t': Treasury, id: nat)
    requires Joined(t, t', id) && 0 < t.totalShares
    ensures StakedValue(t, id) + t.recs[id].pending <= StakedValue(t', id) + CeilDiv(ActiveOf(t.stake), t.totalShares)
  {
    var s, total, a, d := t.recs[id].shares, t.totalShares, ActiveOf(t.stake), t.recs[id].pending;
    var m := SharesFor(d, total, a).value;
    if Added(s, m) < m {
      SoleHolderKeeps(total, a);
      SoleHolderKeeps(t'.totalShares, a + d);
    } else {
      KeptWorth(s, total, a, d);
      FairMint(s + m, total, a, d, m);
    }
  }

  lemma SoleHolderKeeps(t: nat, a: nat)
    requires 0 < t
    ensures Worth(t, t, a) == a
  {
    MulDivSelf(t, a);
  }

  /** A stake costs its own launch at most the price of one share. */
  lemma StakeLosesAtMostAShare(t: Treasury, id: nat)
    requires Solvent(t) && SharesOk(t) && Roomy(t, id) && StakePending(t, id).Ok? && 0 < t.totalShares
    ensures id in t.recs
    ensures StakedValue(t, id) + t.recs[id].pending
            <= StakedValue(StakePending(t, id).value, id) + CeilDiv(ActiveOf(t.stake), t.totalShares)
  {
    StakeJoins(t, id);
    JoiningLosesAtMostAShare(t, StakePending(t, id).value, id);
  }

  // ---- retire ---------------------------------------------------------------------------------

  /** What a retirement of `id` does to the pool: its shares go, and what they are worth leaves the active stake. */
  predicate Left(t: Treasury, t': Treasury, id: nat) {
    && id in t.recs && t'.recs.Keys == t.recs.Keys && (forall i :: i in t.recs && i != id ==> t'.recs[i] == t.recs[i])
    && StakedValue(t, id) <= ActiveOf(t.stake) && t.recs[id].shares <= t.totalShares
    && t'.totalShares == t.totalShares - t.recs[id].shares
    && ActiveOf(t'.stake) == (if StakedValue(t, id) == 0 then ActiveOf(t.stake)
                              else ActiveOf(t.stake) - Swept(t.config.rules, ActiveOf(t.stake), StakedValue(t, id)))
  }

  lemma WorthAtMost(s: nat, t: nat, a: nat)
    requires s <= t
    ensures Worth(s, t, a) <= a
  {
    if t > 0 {
      MulDivAtMost(a, s, t);
      assert a * s == s * a;
    }
  }

  lemma ValueIsWorth(s: nat, t: nat, a: nat)
    requires ValueOf(s, t, a).Ok?
    ensures ValueOf(s, t, a).value == Worth(s, t, a)
  {
    NothingWorth(t, a);
  }

  lemma RedeemLeaves(t: Treasury, id: nat, rec: Record)
    requires SharesOk(t) && id in t.recs && rec.shares == t.recs[id].shares && RedeemShares(t, id, rec).Ok?
    ensures Left(t, RedeemShares(t, id, rec).value, id)
  {
    AtMostSum(t.recs, id, Shares);
    WorthAtMost(rec.shares, t.totalShares, ActiveOf(t.stake));
    ValueIsWorth(rec.shares, t.totalShares, ActiveOf(t.stake));
  }

  lemma RetireLeaves(t: Treasury, id: nat, lastTrade: Option<nat>)
    requires SharesOk(t) && Retire(t, id, lastTrade).Ok?
    ensures Left(t, Retire(t, id, lastTrade).value, id)
  {
    RetireIsRedeem(t, id, lastTrade);
    var t1 := Harvest(t).value;
    var rec := Settle(t1.perShare, t.recs[id]).value;
    RedeemLeaves(t1, id, rec);
    RetargetKeepsTotals(RedeemShares(t1, id, rec).value);
  }

  /** Whether an unbonding of `v` sweeps up a remainder too small to stand. */
  predicate SweepsRest(r: Rules, active: nat, v: nat) {
    0 < v < active && active - v < r.ed
  }

  lemma OthersShare(t: Treasury, id: nat, other: nat)
    requires SharesOk(t) && id in t.recs && other in t.recs && other != id
    ensures t.recs[id].shares + t.recs[other].shares <= t.totalShares
  {
    TwoWithinTotal(Column(t.recs, Shares), id, other);
  }

  lemma OthersWorth(o: nat, s: nat, t: nat, a: nat)
    requires o + s <= t && Worth(s, t, a) <= a
    ensures Worth(o, t, a) <= Worth(o, t - s, a - Worth(s, t, a))
  {
    if 0 < o {
      WorthBelow(s, t, a);
      RedeemKeepsPrice(o, a, t, s, Worth(s, t, a));
    } else {
      NothingWorth(t, a);
    }
  }

  lemma NothingWorth(t: nat, a: nat)
    ensures Worth(0, t, a) == 0
  {
  }

  lemma LeavingIsFairIff(t: Treasury, t': Treasury, id: nat, other: nat)
    requires SharesOk(t) && Left(t, t', id) && other != id && other in t.recs
    ensures StakedValue(t, other) <= StakedValue(t', other)
            <==> !SweepsRest(t.config.rules, ActiveOf(t.stake), StakedValue(t, id)) || StakedValue(t, other) == 0
  {
    if SweepsRest(t.config.rules, ActiveOf(t.stake), StakedValue(t, id)) {
      NothingLeft(t'.recs[other].shares, t'.totalShares);
    } else {
      OthersShare(t, id, other);
      OthersWorth(t.recs[other].shares, t.recs[id].shares, t.totalShares, ActiveOf(t.stake));
    }
  }

  lemma NothingLeft(o: nat, t: nat)
    ensures Worth(o, t, 0) == 0
  {
    assert o * 0 == 0;
  }

  /** A retirement lowers another launch's staked value exactly when its unbonding sweeps a remainder in which the other
      had anything: nothing left behind, or at least the existential deposit, costs nobody. */
  lemma RetireIsFairIff(t: Treasury, id: nat, lastTrade: Option<nat>, other: nat)
    requires SharesOk(t) && Retire(t, id, lastTrade).Ok? && other != id && other in t.recs
    ensures StakedValue(t, other) <= StakedValue(Retire(t, id, lastTrade).value, other)
            <==> !SweepsRest(t.config.rules, ActiveOf(t.stake), StakedValue(t, id)) || StakedValue(t, other) == 0
  {
    RetireLeaves(t, id, lastTrade);
    LeavingIsFairIff(t, Retire(t, id, lastTrade).value, id, other);
  }

  // ---- no shares, no stake ----------------------------------------------------------------------

  lemma StakeKeepsOwned(t: Treasury, id: nat)
    requires Solvent(t) && SharesOk(t) && StakeOwned(t) && Roomy(t, id) && StakePending(t, id).Ok?
    ensures StakeOwned(StakePending(t, id).value) && 0 < StakePending(t, id).value.totalShares
  {
    StakeJoins(t, id);
  }

  /** The last holder to leave takes the whole active stake with it. */
  lemma RetireKeepsOwned(t: Treasury, id: nat, lastTrade: Option<nat>)
    requires SharesOk(t) && StakeOwned(t) && Retire(t, id, lastTrade).Ok?
    ensures StakeOwned(Retire(t, id, lastTrade).value)
  {
    RetireLeaves(t, id, lastTrade);
    if t.totalShares > 0 && t.recs[id].shares == t.totalShares {
      MulDivSelf(t.totalShares, ActiveOf(t.stake));
    }
  }
}
