/** What each payment of the treasury comes to, and how often it may be made. */
module TreasuryPayments {
  import opened Arith
  import opened Results
  import opened Staking
  import opened Broker
  import opened TreasurySpec
  import opened TreasurySolvency
  import opened TreasuryBacking
  import opened TreasuryRetirement
  import opened TreasuryShares
  import opened TreasuryRuns

  // ---- bounties -----------------------------------------------------------------------

  /** What left the vault in a sale's bounty. */
  function SaleBounty(w: Work, w': Work, out: nat): int {
    w.t.vtrs + out - w'.t.vtrs
  }

  /** A sale parts with exactly what it sold, from the record and from the attributed rewards alike; the proceeds are
      set to burn but for a bounty of the set share, which is paid in full or not at all. */
  lemma SaleBooks(w: Work, id: nat, b: Broker, lands: bool)
    requires WorkOk(w, id) && SellAccrued(w, b, lands).Ok?
    requires Sellable(b, Min(w.rec.lnrgAccrued, CanPartWith(w.t))).Some?
    ensures var w', sale := SellAccrued(w, b, lands).value, Sellable(b, Min(w.rec.lnrgAccrued, CanPartWith(w.t))).value;
            var bounty := SaleBounty(w, w', sale.quote);
            && sale.amount <= w.rec.lnrgAccrued && sale.amount + w'.t.lnrg == w.t.lnrg
            && w'.rec.lnrgAccrued == w.rec.lnrgAccrued - sale.amount
            && (sale.amount <= w.t.accounted ==> w'.t.accounted + sale.amount == w.t.accounted)
            && w'.rec.pendingBurn + bounty == w.rec.pendingBurn + sale.quote
            && (lands ==> bounty * BPS <= sale.quote * w.t.terms.keeperBountyBps < bounty * BPS + BPS)
            && (!lands ==> bounty == 0)
  {
    var sale := Sellable(b, Min(w.rec.lnrgAccrued, CanPartWith(w.t))).value;
    SizedSaleGoesThrough(b, w.rec.lnrgAccrued, CanPartWith(w.t), SatSub(sale.quote, sale.quote / 1_000));
    WorkCovers(w, id);
    MulDivAtMost(sale.quote, w.t.terms.keeperBountyBps, BPS);
    FloorBounds(sale.quote * w.t.terms.keeperBountyBps, BPS);
  }

  /** A slice takes exactly what the venue took from what is set to burn, but for what its reading misses, and a bounty,
      of exactly the set share of it whenever there is enough left for one and it lands, and none otherwise; the fee
      that came back is pending. */
  lemma SliceBooks(w: Work, id: nat, y: nat, a: BuyAnswer, lands: bool)
    requires WorkOk(w, id) && a.Bought? && y <= w.rec.pendingBurn && Deliverable(w.t, id, y, a)
    requires BookSlice(w, id, AfterVenue(w.t, id, a.spent, a.arrived), lands).Ok?
    ensures var w' := BookSlice(w, id, AfterVenue(w.t, id, a.spent, a.arrived), lands).value;
            var bounty, read := w.t.vtrs + a.arrived - a.spent - w'.t.vtrs, a.spent - Missed(w.t.vtrs, a.arrived);
            var part := KeeperPart(read, w.t.terms.keeperBountyBps);
            && w'.rec.pending == w.rec.pending + a.arrived
            && w'.rec.pendingBurn + read + bounty == w.rec.pendingBurn
            && bounty == (if lands && part <= w.rec.pendingBurn - read then part else 0)
            && w'.rec.lastBurn == w.t.now
  {
    SliceIsMeasured(w, id, y, a);
    WorkCovers(w, id);
    var read := a.spent - Missed(w.t.vtrs, a.arrived);
    MulDivAtMost(read, w.t.terms.keeperBountyBps, BPS);
    FloorBounds(read * w.t.terms.keeperBountyBps, BPS);
  }

  // ---- how often ------------------------------------------------------------------------

  /** A record keeps the dormancy it was funded under; its burn clock is stamped only by a slice, and no sooner than the
      interval after the last one. */
  predicate Stamped(t: Treasury, r: Record, r': Record, sliced: bool) {
    && r'.dormancy == r.dormancy
    && (r'.lastBurn == r.lastBurn
        || (sliced && r'.lastBurn == t.now && r.lastBurn + t.terms.minBurnInterval <= t.now))
  }

  lemma StakeStamps(t: Treasury, id: nat)
    requires StakePending(t, id).Ok?
    ensures id in t.recs && id in StakePending(t, id).value.recs
    ensures Stamped(t, t.recs[id], StakePending(t, id).value.recs[id], false)
  {
    StakeIsBond(t, id);
    var t1 := Harvest(t).value;
    BondStamps(t1, id, Settle(t1.perShare, t.recs[id]).value);
  }

  lemma BondStamps(t: Treasury, id: nat, rec: Record)
    requires BondPending(t, id, rec).Ok?
    ensures id in BondPending(t, id, rec).value.recs && Stamped(t, rec, BondPending(t, id, rec).value.recs[id], false)
  {
  }

  lemma SellStamps(w: Work, b: Broker, lands: bool)
    requires SellAccrued(w, b, lands).Ok?
    ensures var w' := SellAccrued(w, b, lands).value;
            w'.rec.lastBurn == w.rec.lastBurn && w'.rec.dormancy == w.rec.dormancy
            && w'.t.now == w.t.now && w'.t.terms == w.t.terms
  {
  }

  lemma BurnStamps(w: Work, id: nat, venue: Venue, a: BuyAnswer, lands: bool)
    requires BurnDue(w, id, venue, a, lands).Ok? && w.rec.lastBurn <= w.t.now
    ensures Stamped(w.t, w.rec, BurnDue(w, id, venue, a, lands).value.rec, true)
    ensures BurnDue(w, id, venue, a, lands).value.rec.lastBurn <= w.t.now
  {
  }

  lemma CloseStamps(w: Work, id: nat, protocolTakes: bool)
    requires Close(w, id, protocolTakes).Ok?
    ensures var t' := Close(w, id, protocolTakes).value;
            id in t'.recs && t'.recs[id].lastBurn == w.rec.lastBurn && t'.recs[id].dormancy == w.rec.dormancy
  {
  }

  lemma CompoundStamps(t: Treasury, id: nat, m: Market)
    requires Compound(t, id, m).Ok? && id in t.recs && t.recs[id].lastBurn <= t.now
    ensures id in Compound(t, id, m).value.recs && Stamped(t, t.recs[id], Compound(t, id, m).value.recs[id], true)
    ensures Compound(t, id, m).value.recs[id].lastBurn <= t.now
  {
    CompoundStages(t, id, m);
    var t1 := Harvest(t).value;
    var w0 := Work(t1, Settle(t1.perShare, t.recs[id]).value, false);
    SellStamps(w0, m.broker, m.keeperTakesSale);
    var w1 := SellAccrued(w0, m.broker, m.keeperTakesSale).value;
    BurnStamps(w1, id, m.venue, m.answer, m.keeperTakesSlice);
    CloseStamps(BurnDue(w1, id, m.venue, m.answer, m.keeperTakesSlice).value, id, m.protocolTakes);
  }

  lemma RetireStamps(t: Treasury, id: nat, lastTrade: Option<nat>)
    requires Retire(t, id, lastTrade).Ok?
    ensures id in t.recs && id in Retire(t, id, lastTrade).value.recs
    ensures Stamped(t, t.recs[id], Retire(t, id, lastTrade).value.recs[id], false)
    ensures Retire(t, id, lastTrade).value.recs == t.recs[id := Retire(t, id, lastTrade).value.recs[id]]
  {
    RetireIsRedeem(t, id, lastTrade);
    var t1 := Harvest(t).value;
    RedeemIs(t1, id, Settle(t1.perShare, t.recs[id]).value);
  }

  ghost predicate ClocksOk(t: Treasury) {
    forall id :: id in t.recs ==> t.recs[id].lastBurn <= t.now
  }

  lemma LaunchStamps(t: Treasury, call: Call, id: nat)
    requires ClocksOk(t) && !Quiet(call) && Dispatch(t, call).Ok? && id in t.recs
    ensures id in Dispatch(t, call).value.recs
    ensures Stamped(t, t.recs[id], Dispatch(t, call).value.recs[id], call.CompoundCall? && call.launch == id)
  {
    match call
    case FeeNoted(launch, amount) =>
    case StakeCall(launch) =>
      StakeShape(t, launch);
      StakeStamps(t, launch);
    case CompoundCall(launch, m) =>
      WorkShape(t, launch, m);
      CompoundStamps(t, launch, m);
    case RetireCall(launch, lastTrade) => RetireStamps(t, launch, lastTrade);
    case FinalizeCall(launch) => FinalizeStamps(t, launch, id);
  }

  lemma FinalizeStamps(t: Treasury, launch: nat, id: nat)
    requires Finalize(t, launch).Ok? && id in t.recs
    ensures id in Finalize(t, launch).value.recs && Stamped(t, t.recs[id], Finalize(t, launch).value.recs[id], false)
  {
    var m := DueEntries(t.queue, t.era, true);
    CreditsUnmoved(t.recs, m, 0, Withdraw(t.stake, t.era).value.amount, Expected(m), 0);
  }

  /** Whatever is called, a launch keeps the dormancy it was funded under, and two of its slices are at least the
      interval in force at the second apart. */
  lemma SlicesAreSpaced(t: Treasury, call: Call, id: nat)
    requires ClocksOk(t) && id in t.recs
    ensures id in Step(t, call).recs
    ensures Stamped(t, t.recs[id], Step(t, call).recs[id], call.CompoundCall? && call.launch == id)
  {
    if Dispatch(t, call).Ok? {
      if Quiet(call) {
        QuietShape(t, call);
      } else {
        LaunchStamps(t, call, id);
      }
    }
  }

  lemma NewRecord(t: Treasury, call: Call, id: nat)
    requires id in Step(t, call).recs && id !in t.recs
    ensures Step(t, call).recs[id].lastBurn == t.now && Step(t, call).recs[id].dormancy == t.terms.dormancyBlocks
    ensures Step(t, call).now == t.now
  {
    if Dispatch(t, call).Ok? {
      match call
      case StakeCall(launch) => StakeShape(t, launch);
      case CompoundCall(launch, m) => WorkShape(t, launch, m);
      case RetireCall(launch, lastTrade) => RetireStamps(t, launch, lastTrade);
      case FinalizeCall(launch) =>
        var m := DueEntries(t.queue, t.era, true);
        CreditsUnmoved(t.recs, m, 0, Withdraw(t.stake, t.era).value.amount, Expected(m), 0);
      case _ =>
    }
  }

  lemma ClockRuns(t: Treasury, call: Call)
    ensures t.now <= Step(t, call).now
  {
    if Dispatch(t, call).Ok? {
      match call
      case StakeCall(launch) => StakeNow(t, launch);
      case CompoundCall(launch, m) => WorkShape(t, launch, m);
      case RetireCall(launch, lastTrade) => RetireNow(t, launch, lastTrade);
      case _ =>
    }
  }

  lemma StakeNow(t: Treasury, id: nat)
    requires StakePending(t, id).Ok?
    ensures StakePending(t, id).value.now == t.now
  {
  }

  lemma RetireNow(t: Treasury, id: nat, lastTrade: Option<nat>)
    requires Retire(t, id, lastTrade).Ok?
    ensures Retire(t, id, lastTrade).value.now == t.now
  {
    RetireIsRedeem(t, id, lastTrade);
    var t1 := Harvest(t).value;
    RedeemIs(t1, id, Settle(t1.perShare, t.recs[id]).value);
  }

  lemma StepKeepsClocks(t: Treasury, call: Call)
    requires ClocksOk(t)
    ensures ClocksOk(Step(t, call))
  {
    ClockRuns(t, call);
    forall id | id in Step(t, call).recs
      ensures Step(t, call).recs[id].lastBurn <= Step(t, call).now
    {
      if id in t.recs {
        SlicesAreSpaced(t, call, id);
      } else {
        NewRecord(t, call, id);
      }
    }
  }

  /** Over every run a launch keeps the dormancy it was funded under, whatever governance sets since. */
  lemma {:induction false} DormancyIsSnapshot(t: Treasury, calls: seq<Call>, id: nat)
    requires ClocksOk(t) && id in t.recs
    ensures ClocksOk(Run(t, calls)) && id in Run(t, calls).recs
    ensures Run(t, calls).recs[id].dormancy == t.recs[id].dormancy
    decreases |calls|
  {
    if calls != [] {
      StepKeepsClocks(t, calls[0]);
      SlicesAreSpaced(t, calls[0], id);
      DormancyIsSnapshot(Step(t, calls[0]), calls[1..], id);
    }
  }

  // ---- what a retirement queues -----------------------------------------------------------

  /** Only a dormant launch retires; what it queues is exactly the value of its shares, due a bonding duration from now,
      and its unstaked fees are set to burn. */
  lemma RetireQueues(t: Treasury, id: nat, lastTrade: Option<nat>)
    requires Solvent(t) && Retire(t, id, lastTrade).Ok?
    ensures id in t.recs && lastTrade.Some?
    ensures t.recs[id].dormancy == 0 || lastTrade.value + t.recs[id].dormancy <= t.now
    ensures var t', v := Retire(t, id, lastTrade).value, StakedValue(t, id);
            var due := t.era + t.config.rules.bondingDuration;
            && id in t'.recs && t'.recs[id].pendingBurn == t.recs[id].pendingBurn + t.recs[id].pending
            && t'.recs[id].status == (if v == 0 then Retired else Retiring(due))
            && t'.queue == (if v == 0 then t.queue else t.queue + [Entry(id, due, v)])
  {
    RetireIsRedeem(t, id, lastTrade);
    var t1 := Harvest(t).value;
    var rec := Settle(t1.perShare, t.recs[id]).value;
    RecordReserved(t, id);
    RedeemIs(t1, id, rec);
    RedeemsValue(t1, id, rec);
    RetargetKeepsTotals(RedeemShares(t1, id, rec).value);
  }

  lemma RedeemsValue(t: Treasury, id: nat, rec: Record)
    requires RedeemShares(t, id, rec).Ok?
    ensures var v, t' := Worth(rec.shares, t.totalShares, ActiveOf(t.stake)), RedeemShares(t, id, rec).value;
            && ValueOf(rec.shares, t.totalShares, ActiveOf(t.stake)) == Ok(v)
            && id in t'.recs && (v == 0 <==> t'.recs[id].status == Retired)
  {
    ValueIsWorth(rec.shares, t.totalShares, ActiveOf(t.stake));
  }
}
