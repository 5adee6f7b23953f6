/** The treasury's other calls from the outside: exactly when each goes through, and exactly what it then changes. */
module TreasuryEffects {
  import opened Arith
  import opened Results
  import opened Staking
  import opened TreasurySpec
  import opened TreasurySolvency
  import opened TreasuryBacking
  import opened TreasuryRetirement
  import opened TreasuryFinalize
  import opened TreasuryShares
  import opened TreasuryRuns

  // ---- harvest and settlement ---------------------------------------------------------

  /** What a harvest adds to the rewards per share, scaled: all that arrived since the last, over all shares. */
  function Rise(t: Treasury): nat {
    if t.totalShares == 0 then 0
    else SatSub(t.lnrg, t.accounted) * 1_000_000_000_000_000_000 / t.totalShares
  }

  /** The state after a harvest. */
  function Harvested(t: Treasury): Treasury {
    if t.totalShares == 0 || t.lnrg <= t.accounted then t
    else t.(perShare := Min(t.perShare + Rise(t), U128_MAX), accounted := t.lnrg)
  }

  /** What a launch's shares have earned since the first harvest. */
  function Earned(t: Treasury, shares: nat): nat {
    shares * t.perShare / 1_000_000_000_000_000_000
  }

  /** The harvest and the claim of one launch fit 128 bits. */
  predicate ClaimFits(t: Treasury, id: nat)
    requires id in t.recs
  {
    Rise(t) <= U128_MAX && Earned(Harvested(t), t.recs[id].shares) <= U128_MAX
  }

  /** The record of a launch once its claim is settled. */
  function SettledRecord(t: Treasury, id: nat): Record
    requires id in t.recs
  {
    var rec, earned := t.recs[id], Earned(Harvested(t), t.recs[id].shares);
    rec.(lnrgAccrued := Min(rec.lnrgAccrued + SatSub(earned, rec.lnrgDebt), U128_MAX), lnrgDebt := earned)
  }

  lemma HarvestIs(t: Treasury)
    ensures Harvest(t).Ok? <==> Rise(t) <= U128_MAX
    ensures Harvest(t).Ok? ==> Harvest(t).value == Harvested(t)
  {
  }

  /** A harvest call goes through exactly when there are shares and something has arrived for them that fits, and
      attributes all of it. */
  lemma HarvestCallIff(t: Treasury)
    ensures HarvestCall(t).Ok? <==> 0 < t.totalShares && t.accounted < t.lnrg && Rise(t) <= U128_MAX
    ensures HarvestCall(t).Ok? ==> HarvestCall(t).value == Harvested(t)
  {
  }

  lemma SettleIs(t: Treasury, id: nat)
    requires id in t.recs
    ensures ClaimFits(t, id) <==> Harvest(t).Ok? && Settle(Harvest(t).value.perShare, t.recs[id]).Ok?
    ensures ClaimFits(t, id) ==>
              && Harvest(t).value == Harvested(t)
              && Settle(Harvest(t).value.perShare, t.recs[id]).value == SettledRecord(t, id)
  {
    HarvestIs(t);
  }

  // ---- fees ---------------------------------------------------------------------------

  /** A fee is taken exactly for a launch that is new or active, when it is something and the vault can take it. */
  lemma FeeIff(t: Treasury, id: nat, amount: nat)
    ensures Fee(t, id, amount).Ok? <==>
            && (id in t.recs ==> t.recs[id].status == Active) && 0 < amount
            && t.config.rules.ed <= t.vtrs + amount <= U128_MAX
  {
  }

  /** It joins its launch's pending, less the deposit if it is the vault's first; a first fee opens the launch's record
      under the dormancy then in force, with its burn clock at now; nothing else changes. */
  lemma FeeExactly(t: Treasury, id: nat, amount: nat)
    requires Solvent(t) && Fee(t, id, amount).Ok?
    ensures var t' := Fee(t, id, amount).value;
            var before := if id in t.recs then t.recs[id]
                          else Record(0, 0, 0, 0, 0, t.now, t.terms.dormancyBlocks, Active);
            var noted := if t.funded then amount else SatSub(amount, t.config.rules.ed);
            t' == t.(funded := true, vtrs := t.vtrs + amount,
                     recs := t.recs[id := before.(pending := before.pending + noted)])
  {
    AtMostSum(t.recs, id, Pending);
  }

  // ---- the cooperation that follows a change of the bond -----------------------------------

  /** Whether the stake can cooperate: enough of it, one target at least, and a good reputation. */
  ghost predicate CanCooperate(t: Treasury) {
    && t.config.rules.minCoopBond <= ActiveOf(t.stake) && t.reputationOk
    && exists v :: v in t.targets && v in t.cooperable
  }

  /** `t'` is `t` with the cooperation brought in line with the stake, or marked stale where it cannot be. */
  ghost predicate Recooperated(t: Treasury, t': Treasury) {
    && t'.stale == !CanCooperate(t)
    && (if CanCooperate(t) then
          && t.stake.Some? && t'.stake.Some? && t'.stake.value.cooperating
          && SpreadOver(t'.stake.value.targets, t.stake.value.active, t.targets, t.cooperable)
          && t'.stake.value == t.stake.value.(cooperating := true, targets := t'.stake.value.targets)
        else t'.stake == t.stake)
    && t' == t.(stake := t'.stake, stale := t'.stale)
  }

  lemma RecooperateIs(t: Treasury)
    requires t.config.rules.minCoopBond > 0
    ensures Recooperated(t, Recooperate(t))
  {
    RetargetIff(t);
  }

  // ---- stake --------------------------------------------------------------------------

  /** The shares a stake mints: its fees at the price of a share, or one each for the first. */
  function MintOf(t: Treasury, id: nat): nat
    requires id in t.recs
  {
    var active := ActiveOf(t.stake);
    if t.totalShares == 0 || active == 0 then t.recs[id].pending else t.recs[id].pending * t.totalShares / active
  }

  /** An active launch with enough pending for the minimum stake and the deposit, in a vault that is not insolvent,
      whose sums fit 128 bits. */
  predicate Stakeable(t: Treasury, id: nat) {
    && id in t.recs && t.recs[id].status == Active && t.terms.minStake <= t.recs[id].pending
    && (t.totalShares != 0 ==> ActiveOf(t.stake) != 0) && ClaimFits(t, id)
    && t.config.rules.ed <= ActiveOf(t.stake) + t.recs[id].pending && MintOf(t, id) <= U128_MAX
    && Earned(Harvested(t), Min(t.recs[id].shares + MintOf(t, id), U128_MAX)) <= U128_MAX
  }

  lemma BondIff(t: Treasury, value: nat)
    requires value + HeldBy(t.stake) <= t.vtrs
    ensures BondMore(t, value).Ok? <==> t.config.rules.ed <= ActiveOf(t.stake) + value
  {
  }

  lemma BondPendingIff(t: Treasury, id: nat, rec: Record)
    requires id in t.recs && rec.pending == t.recs[id].pending && rec.shares == t.recs[id].shares
    requires 0 < rec.pending && rec.pending + HeldBy(t.stake) <= t.vtrs
    requires t.totalShares != 0 ==> ActiveOf(t.stake) != 0
    requires rec.pending <= U128_MAX
    ensures var mint := MintOf(t, id);
            BondPending(t, id, rec).Ok? <==>
            && t.config.rules.ed <= ActiveOf(t.stake) + rec.pending && mint <= U128_MAX
            && Earned(t, Min(rec.shares + mint, U128_MAX)) <= U128_MAX
    ensures var mint := MintOf(t, id);
            BondPending(t, id, rec).Ok? ==>
              && BondMore(t, rec.pending).Ok?
              && BondPending(t, id, rec).value
                 == Recooperate(Staked(t, id, rec, mint, BondMore(t, rec.pending).value))
  {
    BondIff(t, rec.pending);
    if BondMore(t, rec.pending).Ok? {
      BondTakesAll(t, rec.pending);
    }
  }

  /** The state a stake leaves, before the cooperation follows. */
  function Staked(t: Treasury, id: nat, rec: Record, mint: nat, l: Stake): Treasury {
    var more := Min(rec.shares + mint, U128_MAX);
    t.(recs := t.recs[id := rec.(pending := 0, shares := more, lnrgDebt := Earned(t, more))],
       totalShares := Min(t.totalShares + mint, U128_MAX), stake := Some(l))
  }

  /** A launch's fees are staked exactly when they may be. */
  lemma StakeIff(t: Treasury, id: nat)
    requires Solvent(t)
    ensures StakePending(t, id).Ok? <==> Stakeable(t, id)
  {
    if id in t.recs && t.recs[id].status == Active && t.terms.minStake <= t.recs[id].pending {
      SettleIs(t, id);
      RecordReserved(t, id);
      if ClaimFits(t, id) && (t.totalShares != 0 ==> ActiveOf(t.stake) != 0) {
        BondPendingIff(Harvested(t), id, SettledRecord(t, id));
      }
    }
  }

  /** A stake bonds all the launch's pending, mints its shares at the price before it, checkpoints them at what they
      would have earned, and brings the cooperation in line; nothing else changes. */
  lemma StakeExactly(t: Treasury, id: nat)
    requires Solvent(t) && StakePending(t, id).Ok? && t.config.rules.minCoopBond > 0
    ensures Stakeable(t, id)
    ensures var before := if t.stake.Some? then t.stake.value else Stake(0, [], false, []);
            var l := before.(active := before.active + t.recs[id].pending);
            Recooperated(Staked(Harvested(t), id, SettledRecord(t, id), MintOf(t, id), l), StakePending(t, id).value)
  {
    StakeIff(t, id);
    SettleIs(t, id);
    RecordReserved(t, id);
    StakeIsBond(t, id);
    BondedExactly(Harvested(t), id, SettledRecord(t, id));
  }

  lemma BondedExactly(t: Treasury, id: nat, rec: Record)
    requires id in t.recs && rec.pending == t.recs[id].pending && rec.shares == t.recs[id].shares
    requires 0 < rec.pending <= U128_MAX && rec.pending + HeldBy(t.stake) <= t.vtrs
    requires (t.totalShares != 0 ==> ActiveOf(t.stake) != 0) && t.config.rules.minCoopBond > 0
    requires BondPending(t, id, rec).Ok?
    ensures var before := if t.stake.Some? then t.stake.value else Stake(0, [], false, []);
            var l := before.(active := before.active + rec.pending);
            Recooperated(Staked(t, id, rec, MintOf(t, id), l), BondPending(t, id, rec).value)
  {
    BondPendingIff(t, id, rec);
    BondTakesAll(t, rec.pending);
    RecooperateIs(Staked(t, id, rec, MintOf(t, id), BondMore(t, rec.pending).value));
  }

  // ---- retire -------------------------------------------------------------------------

  /** Whether `v` can be taken out of the stake: a chunk is free, and what is left either ends the cooperation or is not
      below the deposit. */
  predicate Unbondable(t: Treasury, v: nat) {
    && |t.queue| < t.config.rules.maxChunks && t.stake.Some? && |t.stake.value.unlocking| < t.config.rules.maxChunks
    && (t.stake.value.cooperating ==>
          || SatSub(t.stake.value.active, v) < t.config.rules.minCoopBond
          || t.config.rules.ed <= SatSub(t.stake.value.active, v))
  }

  /** An active launch nobody traded for its dormancy, whose stake, if it has any, can be taken out. */
  predicate Retirable(t: Treasury, id: nat, lastTrade: Option<nat>) {
    && id in t.recs && t.recs[id].status == Active && lastTrade.Some?
    && t.recs[id].dormancy <= SatSub(t.now, lastTrade.value) && ClaimFits(t, id)
    && var v := StakedValue(t, id);
       v <= U128_MAX && (v == 0 || Unbondable(t, v))
  }

  lemma UnstakeIff(t: Treasury, v: nat)
    requires 0 < v && t.config.rules.minCoopBond > 0 && ActiveOf(t.stake) > 0
    ensures |t.queue| < t.config.rules.maxChunks ==> (Unstake(t, v).Ok? <==> Unbondable(t, v))
    ensures Unstake(t, v).Ok? ==> Unstaked(t, Unstake(t, v).value, v)
  {
  }

  /** `l` is the ledger after `v` was taken out: with the rest too where that would be below the deposit, as one chunk
      that matures a bonding duration from now. */
  predicate Unstaked(t: Treasury, l: Stake, v: nat) {
    && t.stake.Some?
    && var active := t.stake.value.active;
       var out := if SatSub(active, v) < t.config.rules.ed then active else Min(v, active);
       && l.active == active - out
       && l.unlocking == PushChunk(t.stake.value.unlocking, t.era + t.config.rules.bondingDuration, out)
       && l.cooperating == (IsCooperating(t.stake) && t.config.rules.minCoopBond <= SatSub(active, v))
  }

  lemma ValueIs(t: Treasury, id: nat, rec: Record)
    requires id in t.recs && rec.shares == t.recs[id].shares
    ensures var v := StakedValue(t, id);
            && (ValueOf(rec.shares, t.totalShares, ActiveOf(t.stake)).Ok? <==> v <= U128_MAX)
            && (v <= U128_MAX ==> ValueOf(rec.shares, t.totalShares, ActiveOf(t.stake)) == Ok(v))
            && (v > 0 ==> ActiveOf(t.stake) > 0)
  {
    NothingWorth(t.totalShares, ActiveOf(t.stake));
  }

  /** A launch retires exactly when it may. */
  lemma RetireIff(t: Treasury, id: nat, lastTrade: Option<nat>)
    requires Solvent(t) && t.config.rules.minCoopBond > 0
    ensures Retire(t, id, lastTrade).Ok? <==> Retirable(t, id, lastTrade)
  {
    if id in t.recs {
      SettleIs(t, id);
      if ClaimFits(t, id) {
        RedeemIff(Harvested(t), id, SettledRecord(t, id));
      }
    }
  }

  lemma RedeemIff(t: Treasury, id: nat, rec: Record)
    requires id in t.recs && rec.shares == t.recs[id].shares && t.config.rules.minCoopBond > 0
    ensures var v := StakedValue(t, id);
            RedeemShares(t, id, rec).Ok? <==> v <= U128_MAX && (v == 0 || Unbondable(t, v))
  {
    ValueIs(t, id, rec);
    if StakedValue(t, id) > 0 {
      UnstakeIff(t, StakedValue(t, id));
    }
  }

  /** `t2` is `t` after a settled launch left the pool: its shares gone, its unstaked fees set to burn, and `v`, what
      its shares were worth, out of the stake and in the queue, if that is anything. */
  ghost predicate LeavesAs(t: Treasury, t2: Treasury, id: nat, rec: Record, v: nat) {
    var due := t.era + t.config.rules.bondingDuration;
    && t2.recs == t.recs[id := rec.(pending := 0, shares := 0, lnrgDebt := 0,
                                    pendingBurn := rec.pendingBurn + rec.pending,
                                    status := if v == 0 then Retired else Retiring(due))]
    && t2.queue == (if v == 0 then t.queue else t.queue + [Entry(id, due, v)])
    && (if v == 0 then t2.stake == t.stake else t2.stake.Some? && Unstaked(t, t2.stake.value, v))
    && t2 == t.(recs := t2.recs, totalShares := SatSub(t.totalShares, rec.shares), queue := t2.queue,
                stake := t2.stake)
  }

  lemma RedeemExactly(t: Treasury, id: nat, rec: Record)
    requires id in t.recs && rec.shares == t.recs[id].shares && t.config.rules.minCoopBond > 0
    requires rec.pendingBurn + rec.pending <= U128_MAX && RedeemShares(t, id, rec).Ok?
    ensures LeavesAs(t, RedeemShares(t, id, rec).value, id, rec, StakedValue(t, id))
  {
    var v := StakedValue(t, id);
    ValueIs(t, id, rec);
    if v > 0 {
      UnstakeIff(t, v);
    }
  }

  /** A retirement settles the launch's claim, takes it out of the pool for what its shares are worth, and brings a
      cooperation that goes on in line. */
  lemma RetireExactly(t: Treasury, id: nat, lastTrade: Option<nat>)
    requires Solvent(t) && Retire(t, id, lastTrade).Ok? && t.config.rules.minCoopBond > 0
    ensures Retirable(t, id, lastTrade)
    ensures exists t2 ::
              && LeavesAs(Harvested(t), t2, id, SettledRecord(t, id), StakedValue(t, id))
              && if IsCooperating(t2.stake) then Recooperated(t2, Retire(t, id, lastTrade).value)
                 else t2 == Retire(t, id, lastTrade).value
  {
    RetireIff(t, id, lastTrade);
    SettleIs(t, id);
    RetireIsRedeem(t, id, lastTrade);
    RecordReserved(t, id);
    RedeemExactly(Harvested(t), id, SettledRecord(t, id));
    RecooperateIs(RedeemShares(Harvested(t), id, SettledRecord(t, id)).value);
  }

  // ---- finalize -----------------------------------------------------------------------

  /** A retirement is finalized exactly when its chunk has matured and a ledger is there to withdraw from, whatever was
      slashed. */
  lemma FinalizeIff(t: Treasury, id: nat)
    requires Solvent(t) && QueueOk(t)
    ensures Finalize(t, id).Ok? <==>
            && id in t.recs && t.recs[id].status.Retiring? && t.recs[id].status.chunkEra <= t.era && t.stake.Some?
  {
    if id in t.recs && t.recs[id].status.Retiring? && t.recs[id].status.chunkEra <= t.era {
      FinalizeWorksIff(t, id);
    }
  }

  /** It leaves exactly the entries that wait, takes exactly what matured off the ledger, and touches nothing but
      records, queue and ledger. */
  lemma FinalizeLeaves(t: Treasury, id: nat)
    requires QueueOk(t) && Finalize(t, id).Ok?
    ensures var t' := Finalize(t, id).value;
            && t' == t.(stake := t'.stake, recs := t'.recs, queue := t'.queue)
            && HeldBy(t'.stake) + CameBack(t) == HeldBy(t.stake) && ActiveOf(t'.stake) == ActiveOf(t.stake)
            && forall e :: e in t'.queue <==> e in t.queue && t.era < e.era
  {
    FinalizeIs(t, id);
    WithdrawTakesMatured(t.stake, t.era);
    forall e: Entry
      ensures e in DueEntries(t.queue, t.era, false) <==> e in t.queue && t.era < e.era
    {
      DueIsFilter(t.queue, t.era, false, e);
    }
  }

  // ---- settings -----------------------------------------------------------------------

  /** Terms are taken exactly within bounds, and change nothing but what is decided later. */
  lemma SetTermsIff(t: Treasury, terms: Terms)
    ensures SetTerms(t, terms).Ok? <==>
            && 10 <= terms.maxBurnImpactBps <= 200 && terms.keeperBountyBps <= 200 && 0 < terms.dormancyBlocks
            && 0 < terms.minStake
    ensures SetTerms(t, terms).Ok? ==> SetTerms(t, terms).value == t.(terms := terms)
  {
  }

  /** Targets are taken exactly when there are not too many; the cooperation follows if there is a ledger. */
  lemma SetTargetsIff(t: Treasury, targets: seq<nat>)
    requires t.config.rules.minCoopBond > 0
    ensures SetTargets(t, targets).Ok? <==> |targets| <= t.config.maxTargets
    ensures SetTargets(t, targets).Ok? ==>
              var t' := SetTargets(t, targets).value;
              if t.stake.Some? then Recooperated(t.(targets := targets), t') else t' == t.(targets := targets)
  {
    RecooperateIs(t.(targets := targets));
  }
}
