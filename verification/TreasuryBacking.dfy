/** Every launch's claim on the rewards is backed, up to less than one base unit for each late stake. */
module TreasuryBacking {
  import opened Arith
  import opened Results
  import opened Ledger
  import opened Staking
  import opened Broker
  import opened TreasurySpec
  import opened TreasurySolvency

  // ---- the scaled invariant -----------------------------------------------------------

  /** Scaled claims within the scaled attributed rewards, and less than one unit for each of `late` stakes. */
  ghost predicate Covered(t: Treasury, late: nat) {
    SCALE * SumOf(t.recs, Accrued) + t.perShare * SumOf(t.recs, Shares)
    <= SCALE * t.accounted + late * (SCALE - 1) + SCALE * SumOf(t.recs, Debt)
  }

  /** A checkpoint never lies above what the shares have earned since the beginning. */
  predicate DebtOk(perShare: nat, rec: Record) {
    rec.lnrgDebt * SCALE <= rec.shares * perShare
  }

  ghost predicate SharesOk(t: Treasury) {
    SumOf(t.recs, Shares) == t.totalShares <= U128_MAX
  }

  ghost predicate Backed(t: Treasury, late: nat) {
    && Covered(t, late) && SharesOk(t) && t.perShare <= U128_MAX
    && DebtsOk(t.recs, t.perShare)
  }

  ghost predicate DebtsOk(recs: map<nat, Record>, perShare: nat) {
    forall id :: id in recs ==> DebtOk(perShare, recs[id])
  }

  lemma MulSums(p: nat, sum: nat, sum': nat, part: nat, part': nat)
    requires sum' + part == sum + part'
    ensures p * sum' + p * part == p * sum + p * part'
  {
    assert p * sum' + p * part == p * (sum' + part);
    assert p * sum + p * part' == p * (sum + part');
  }

  /** What a replaced record may add to the scaled claims. */
  lemma CoveredPut(t: Treasury, id: nat, rec: Record, late: nat, late': nat)
    requires Covered(t, late) && id in t.recs && late <= late'
    requires SCALE * rec.lnrgAccrued + t.perShare * rec.shares + SCALE * t.recs[id].lnrgDebt
             <= SCALE * t.recs[id].lnrgAccrued + t.perShare * t.recs[id].shares + SCALE * rec.lnrgDebt
                + (late' - late) * (SCALE - 1)
    ensures Covered(Put(t, id, rec), late')
  {
    SumPut(t.recs, id, rec, Accrued);
    SumPut(t.recs, id, rec, Shares);
    SumPut(t.recs, id, rec, Debt);
    MulSums(t.perShare, SumOf(t.recs, Shares), SumOf(Put(t, id, rec).recs, Shares), t.recs[id].shares, rec.shares);
  }

  lemma BackedPut(t: Treasury, id: nat, rec: Record, late: nat)
    requires Backed(t, late) && id in t.recs && rec.shares == t.recs[id].shares && DebtOk(t.perShare, rec)
    requires rec.lnrgAccrued + t.recs[id].lnrgDebt <= t.recs[id].lnrgAccrued + rec.lnrgDebt
    ensures Backed(Put(t, id, rec), late)
  {
    CoveredPut(t, id, rec, late, late);
    SumPut(t.recs, id, rec, Shares);
  }

  // ---- harvest and settle ---------------------------------------------------------------

  /** Attributing rewards pays out at most what arrived. */
  lemma HarvestBacked(t: Treasury, late: nat)
    requires Backed(t, late) && Harvest(t).Ok?
    ensures Backed(Harvest(t).value, late)
  {
    if Unattributed(t) != 0 {
      HarvestRises(t);
      HarvestCovered(t, late);
      RisenBacked(t, Harvest(t).value, late);
    }
  }

  lemma HarvestRises(t: Treasury)
    requires t.perShare <= U128_MAX && Harvest(t).Ok?
    ensures var t' := Harvest(t).value;
            t' == t.(perShare := t'.perShare, accounted := t'.accounted) && t.perShare <= t'.perShare <= U128_MAX
  {
  }

  lemma RisenBacked(t: Treasury, t': Treasury, late: nat)
    requires Backed(t, late) && Covered(t', late) && t' == t.(perShare := t'.perShare, accounted := t'.accounted)
    requires t.perShare <= t'.perShare <= U128_MAX
    ensures Backed(t', late)
  {
    RisingKeepsDebts(t.recs, t.perShare, t'.perShare);
  }

  lemma HarvestCovered(t: Treasury, late: nat)
    requires Covered(t, late) && SharesOk(t) && Unattributed(t) != 0 && Harvest(t).Ok?
    ensures Covered(Harvest(t).value, late)
  {
    RisePaysOut(t.perShare, Unattributed(t), t.totalShares);
  }

  lemma RisingKeepsDebts(recs: map<nat, Record>, p: nat, p': nat)
    requires p <= p' && DebtsOk(recs, p)
    ensures DebtsOk(recs, p')
  {
    forall id | id in recs
      ensures DebtOk(p', recs[id])
    {
      RisingKeepsDebt(p, p', recs[id]);
    }
  }

  lemma RisePaysOut(p: nat, delta: nat, shares: nat)
    requires shares > 0
    ensures SatAdd(p, delta * SCALE / shares) * shares <= p * shares + delta * SCALE
  {
    var inc := delta * SCALE / shares;
    FloorBounds(delta * SCALE, shares);
    MulMono(SatAdd(p, inc), p + inc, shares);
    assert (p + inc) * shares == p * shares + inc * shares;
  }

  /** ... and all of it but less than one scaled unit a share: what rounding keeps back is never attributed twice. */
  lemma HarvestAttributesAll(t: Treasury)
    requires t.totalShares > 0 && t.accounted <= t.lnrg && Harvest(t).Ok?
    requires t.perShare + (t.lnrg - t.accounted) * SCALE / t.totalShares <= U128_MAX
    ensures var t', delta := Harvest(t).value, t.lnrg - t.accounted;
            && t'.accounted == t.lnrg && t.perShare <= t'.perShare
            && (t'.perShare - t.perShare) * t.totalShares <= delta * SCALE
            && delta * SCALE < (t'.perShare - t.perShare) * t.totalShares + t.totalShares
  {
    FloorBounds((t.lnrg - t.accounted) * SCALE, t.totalShares);
  }

  lemma RisingKeepsDebt(p: nat, p': nat, rec: Record)
    requires DebtOk(p, rec) && p <= p'
    ensures DebtOk(p', rec)
  {
    MulMono(p, p', rec.shares);
  }

  /** Settling turns what the shares have earned since the checkpoint into an accrued amount, and no more. */
  lemma SettleIsFair(p: nat, rec: Record)
    requires DebtOk(p, rec) && Settle(p, rec).Ok?
    ensures var r := Settle(p, rec).value;
            && DebtOk(p, r) && rec.lnrgDebt <= r.lnrgDebt
            && r.lnrgAccrued + rec.lnrgDebt <= rec.lnrgAccrued + r.lnrgDebt
            && rec.shares * p < r.lnrgDebt * SCALE + SCALE
            && r == rec.(lnrgAccrued := r.lnrgAccrued, lnrgDebt := r.lnrgDebt)
            && ClaimableOf(p, r) <= ClaimableOf(p, rec)
            && (ClaimableOf(p, rec) <= U128_MAX ==> ClaimableOf(p, r) == ClaimableOf(p, rec))
  {
    FloorBounds(rec.shares * p, SCALE);
    FloorIff(rec.shares * p, SCALE, rec.lnrgDebt);
  }

  lemma SettleBacked(t: Treasury, id: nat, late: nat)
    requires Backed(t, late) && id in t.recs && Settle(t.perShare, t.recs[id]).Ok?
    ensures Backed(Put(t, id, Settle(t.perShare, t.recs[id]).value), late)
  {
    assert DebtOk(t.perShare, t.recs[id]);
    SettleIsFair(t.perShare, t.recs[id]);
    BackedPut(t, id, Settle(t.perShare, t.recs[id]).value, late);
  }

  // ---- stake ------------------------------------------------------------------------------

  /** What a mint of `m` adds to `s` shares. */
  function Added(s: nat, m: nat): nat {
    SatSub(SatAdd(s, m), s)
  }

  /** The mint leaves the share total exact: the total has room for it, or the launch holds every share. */
  predicate Roomy(t: Treasury, id: nat) {
    id in t.recs ==>
      var m := SharesFor(t.recs[id].pending, t.totalShares, ActiveOf(t.stake));
      m.Ok? ==> t.totalShares + m.value <= U128_MAX || t.recs[id].shares == t.totalShares
  }

  /** Minted shares start with a floored checkpoint: the claims grow by less than one unit, by nothing at all before the
      accumulator first moves. */
  lemma MintCovered(t: Treasury, id: nat, rec: Record, shares: nat, late: nat)
    requires Backed(Put(t, id, rec), late) && id in t.recs && rec.shares + shares <= U128_MAX
    requires rec.shares * t.perShare < rec.lnrgDebt * SCALE + SCALE
    requires Minted(t.perShare, rec, 0, shares).Ok?
    ensures var r := Minted(t.perShare, rec, 0, shares).value;
            && Covered(Put(t, id, r), if t.perShare == 0 then late else late + 1)
            && DebtOk(t.perShare, r)
            && SumOf(Put(t, id, r).recs, Shares) == SumOf(Put(t, id, rec).recs, Shares) + shares
  {
    var p, more, t1 := t.perShare, rec.shares + shares, Put(t, id, rec);
    var r := Minted(p, rec, 0, shares).value;
    assert DebtOk(p, t1.recs[id]);
    MintArith(p, rec.shares, more, rec.lnrgDebt, r.lnrgDebt);
    SumPut(t1.recs, id, r, Shares);
    PutTwice(t, id, rec, r);
    CoveredPut(t1, id, r, late, if p == 0 then late else late + 1);
  }

  /** A floored checkpoint loses less than a unit of what the shares would have earned. */
  lemma MintArith(p: nat, shares: nat, more: nat, debt: nat, debt': nat)
    requires debt * SCALE <= shares * p && debt' == more * p / SCALE
    ensures debt' * SCALE <= more * p
    ensures p * more + SCALE * debt <= p * shares + SCALE * debt' + (if p == 0 then 0 else SCALE - 1)
  {
    FloorBounds(more * p, SCALE);
    if p == 0 {
      MulMono(p, 0, more);
    }
  }

  lemma RecooperateBacked(t: Treasury, late: nat)
    requires Backed(t, late)
    ensures Backed(Recooperate(t), late)
  {
    RetargetKeepsTotals(t);
  }

  lemma OthersKeepDebt(t: Treasury, id: nat, rec: Record, late: nat)
    requires Backed(t, late) && DebtOk(t.perShare, rec)
    ensures DebtsOk(Put(t, id, rec).recs, t.perShare)
  {
  }

  lemma BondPendingBacked(t: Treasury, id: nat, rec: Record, late: nat)
    requires Backed(Put(t, id, rec), late) && id in t.recs && BondPending(t, id, rec).Ok?
    requires rec.shares * t.perShare < rec.lnrgDebt * SCALE + SCALE
    requires rec.pending + HeldBy(t.stake) <= t.vtrs && Roomy(Put(t, id, rec), id)
    ensures Backed(BondPending(t, id, rec).value, if t.perShare == 0 then late else late + 1)
  {
    BondPendingIs(t, id, rec);
    AtMostSum(Put(t, id, rec).recs, id, Shares);
    var shares := SharesFor(rec.pending, t.totalShares, ActiveOf(t.stake)).value;
    var minted := Minted(t.perShare, rec, 0, shares).value;
    assert SatAdd(rec.shares, Added(rec.shares, shares)) == SatAdd(rec.shares, shares);
    MintCovered(t, id, rec, Added(rec.shares, shares), late);
    OthersKeepDebt(Put(t, id, rec), id, minted, late);
    PutTwice(t, id, rec, minted);
    var t1 := Bonded(t, id, minted, shares, BondMore(t, rec.pending).value);
    RecooperateBacked(t1, if t.perShare == 0 then late else late + 1);
  }

  lemma SettledStakeBacked(t: Treasury, id: nat, late: nat)
    requires Solvent(t) && Backed(t, late) && id in t.recs && Roomy(t, id) && Settle(t.perShare, t.recs[id]).Ok?
    requires BondPending(t, id, Settle(t.perShare, t.recs[id]).value).Ok?
    ensures Backed(BondPending(t, id, Settle(t.perShare, t.recs[id]).value).value,
                   if t.perShare == 0 then late else late + 1)
  {
    SettleBacked(t, id, late);
    assert DebtOk(t.perShare, t.recs[id]);
    SettleIsFair(t.perShare, t.recs[id]);
    RecordReserved(t, id);
    BondPendingBacked(t, id, Settle(t.perShare, t.recs[id]).value, late);
  }

  /** A stake adds less than one unit of unbacked claims, and only once the accumulator has moved. */
  lemma StakeBacked(t: Treasury, id: nat, late: nat)
    requires Solvent(t) && Backed(t, late) && Roomy(t, id) && StakePending(t, id).Ok?
    ensures var t' := StakePending(t, id).value;
            Backed(t', if t'.perShare == 0 then late else late + 1)
  {
    HarvestSolvent(t);
    HarvestBacked(t, late);
    var t1 := Harvest(t).value;
    StakeIsBond(t, id);
    SettledStakeBacked(t1, id, late);
    StakePerShare(t1, id, Settle(t1.perShare, t.recs[id]).value);
  }

  lemma StakeIsBond(t: Treasury, id: nat)
    requires StakePending(t, id).Ok?
    ensures Harvest(t).Ok? && id in t.recs
    ensures var t1 := Harvest(t).value;
            && t1.recs == t.recs && t1.totalShares == t.totalShares && t1.stake == t.stake
            && Settle(t1.perShare, t.recs[id]).Ok?
            && StakePending(t, id) == BondPending(t1, id, Settle(t1.perShare, t.recs[id]).value)
  {
  }

  lemma StakePerShare(t: Treasury, id: nat, rec: Record)
    requires BondPending(t, id, rec).Ok?
    ensures BondPending(t, id, rec).value.perShare == t.perShare
  {
  }

  // ---- when the share total saturates ---------------------------------------------------------

  /** A mint keeps the records' shares equal to the total exactly when the total has room, or one launch holds it all.
      */
  lemma SharesStayExactIff(t: Treasury, id: nat, rec: Record, shares: nat)
    requires SharesOk(t) && id in t.recs && rec.shares == t.recs[id].shares
    requires Minted(t.perShare, rec, 0, shares).Ok?
    ensures var t' := Put(t, id, Minted(t.perShare, rec, 0, shares).value)
                      .(totalShares := SatAdd(t.totalShares, shares));
            SharesOk(t') <==> t.totalShares + shares <= U128_MAX || t.recs[id].shares == t.totalShares
  {
    AtMostSum(t.recs, id, Shares);
    SumPut(t.recs, id, Minted(t.perShare, rec, 0, shares).value, Shares);
  }

  // ---- sale, slice, retire ------------------------------------------------------------------

  lemma BookSaleBacked(w: Work, id: nat, x: nat, out: nat, lands: bool, late: nat)
    requires Backed(Put(w.t, id, w.rec), late) && id in w.t.recs && x <= w.rec.lnrgAccrued
    requires BookSale(w, x, out, lands).Ok?
    ensures var w' := BookSale(w, x, out, lands).value;
            Backed(Put(w'.t, id, w'.rec), late) && w'.t.recs == w.t.recs && w'.t.perShare == w.t.perShare
  {
    var w' := BookSale(w, x, out, lands).value;
    var t1 := Put(w.t, id, w.rec);
    BookSaleTakes(w, x, out, lands);
    LessAccrued(t1, id, w'.rec, x);
    PutTwice(w.t, id, w.rec, w'.rec);
    SameCheckpointKeepsDebts(t1.recs, t1.perShare, id, w'.rec);
  }

  lemma BookSaleTakes(w: Work, x: nat, out: nat, lands: bool)
    requires x <= w.rec.lnrgAccrued && BookSale(w, x, out, lands).Ok?
    ensures var w' := BookSale(w, x, out, lands).value;
            && w'.rec == w.rec.(lnrgAccrued := w.rec.lnrgAccrued - x, pendingBurn := w'.rec.pendingBurn)
            && w'.t == w.t.(vtrs := w'.t.vtrs, lnrg := w'.t.lnrg, accounted := SatSub(w.t.accounted, x))
  {
  }

  /** What a sale of `x` from a record does to the sums. */
  lemma LessAccrued(t: Treasury, id: nat, rec: Record, x: nat)
    requires id in t.recs && rec.shares == t.recs[id].shares && rec.lnrgDebt == t.recs[id].lnrgDebt
    requires rec.lnrgAccrued + x == t.recs[id].lnrgAccrued
    ensures SumOf(Put(t, id, rec).recs, Accrued) + x == SumOf(t.recs, Accrued)
    ensures SumOf(Put(t, id, rec).recs, Shares) == SumOf(t.recs, Shares)
    ensures SumOf(Put(t, id, rec).recs, Debt) == SumOf(t.recs, Debt)
  {
    SumPut(t.recs, id, rec, Accrued);
    SumPut(t.recs, id, rec, Shares);
    SumPut(t.recs, id, rec, Debt);
  }

  lemma SameCheckpointKeepsDebts(recs: map<nat, Record>, p: nat, id: nat, rec: Record)
    requires id in recs && recs[id].shares == rec.shares && recs[id].lnrgDebt == rec.lnrgDebt
    requires DebtsOk(recs, p)
    ensures DebtsOk(recs[id := rec], p)
  {
    assert DebtOk(p, recs[id]);
  }

  lemma SellBacked(w: Work, id: nat, b: Broker, lands: bool, late: nat)
    requires Backed(Put(w.t, id, w.rec), late) && id in w.t.recs && SellAccrued(w, b, lands).Ok?
    ensures var w' := SellAccrued(w, b, lands).value; Backed(Put(w'.t, id, w'.rec), late)
  {
    var sale := Sellable(b, Min(w.rec.lnrgAccrued, CanPartWith(w.t)));
    if sale.Some? {
      var q := sale.value.quote;
      SizedSaleGoesThrough(b, w.rec.lnrgAccrued, CanPartWith(w.t), SatSub(q, q / 1_000));
      BookSaleBacked(w, id, sale.value.amount, q, lands, late);
    }
  }

  /** Same accumulator, same claims in every record. */
  ghost predicate ClaimsUnmoved(t: Treasury, t': Treasury) {
    && t'.perShare == t.perShare && t'.accounted == t.accounted && t'.totalShares == t.totalShares
    && t'.recs.Keys == t.recs.Keys
    && (forall id :: id in t.recs ==>
          && t'.recs[id].shares == t.recs[id].shares && t'.recs[id].lnrgDebt == t.recs[id].lnrgDebt
          && t'.recs[id].lnrgAccrued == t.recs[id].lnrgAccrued)
  }

  lemma UnmovedBacked(t: Treasury, t': Treasury, late: nat)
    requires Backed(t, late) && ClaimsUnmoved(t, t')
    ensures Backed(t', late)
  {
    assert Column(t'.recs, Accrued) == Column(t.recs, Accrued);
    assert Column(t'.recs, Shares) == Column(t.recs, Shares);
    assert Column(t'.recs, Debt) == Column(t.recs, Debt);
    forall id | id in t'.recs
      ensures DebtOk(t'.perShare, t'.recs[id])
    {
      assert DebtOk(t.perShare, t.recs[id]);
    }
  }

  lemma RedeemBacked(t: Treasury, id: nat, rec: Record, status: Status, late: nat)
    requires Backed(Put(t, id, rec), late) && id in t.recs
    ensures Covered(Put(t, id, Redeemed(rec, status)), late)
    ensures rec.shares <= t.totalShares
    ensures Backed(Put(t, id, Redeemed(rec, status)).(totalShares := SatSub(t.totalShares, rec.shares)), late)
  {
    var t1, r := Put(t, id, rec), Redeemed(rec, status);
    assert DebtOk(t.perShare, t1.recs[id]);
    assert t.perShare * rec.shares == rec.shares * t.perShare;
    CoveredPut(t1, id, r, late, late);
    PutTwice(t, id, rec, r);
    SumPut(t1.recs, id, r, Shares);
    AtMostSum(t1.recs, id, Shares);
    OthersKeepDebt(t1, id, r, late);
  }

  lemma RedeemSharesBacked(t: Treasury, id: nat, rec: Record, late: nat)
    requires Backed(Put(t, id, rec), late) && id in t.recs && RedeemShares(t, id, rec).Ok?
    ensures Backed(RedeemShares(t, id, rec).value, late)
  {
    var t' := RedeemShares(t, id, rec).value;
    RedeemIs(t, id, rec);
    RedeemBacked(t, id, rec, t'.recs[id].status, late);
    var t1 := Put(t, id, Redeemed(rec, t'.recs[id].status)).(totalShares := SatSub(t.totalShares, rec.shares));
    UnmovedBacked(t1, t', late);
  }

  lemma RetireBacked(t: Treasury, id: nat, lastTrade: Option<nat>, late: nat)
    requires Backed(t, late) && Retire(t, id, lastTrade).Ok?
    ensures Backed(Retire(t, id, lastTrade).value, late)
  {
    HarvestBacked(t, late);
    RetireIsRedeem(t, id, lastTrade);
    var t1 := Harvest(t).value;
    var rec := Settle(t1.perShare, t.recs[id]).value;
    SettleBacked(t1, id, late);
    RedeemSharesBacked(t1, id, rec, late);
    RecooperateBacked(RedeemShares(t1, id, rec).value, late);
  }

  // ---- slice and fee: only pending and pendingBurn move -----------------------------------------

  lemma VenueUnmoved(t: Treasury, id: nat, spent: nat, arrived: nat)
    requires id in t.recs && spent <= t.vtrs
    ensures var after := AfterVenue(t, id, spent, arrived);
            && id in after.recs
            && after == t.(vtrs := after.vtrs, funded := after.funded,
                           recs := t.recs[id := t.recs[id].(pending := after.recs[id].pending)])
  {
    assert arrived == 0 ==> t.recs[id := t.recs[id]] == t.recs;
  }

  lemma BookUnmoved(w: Work, id: nat, after: Treasury, lands: bool)
    requires id in w.t.recs && id in after.recs && BookSlice(w, id, after, lands).Ok?
    requires after == w.t.(vtrs := after.vtrs, funded := after.funded, recs := w.t.recs[id := after.recs[id]])
    ensures var w' := BookSlice(w, id, after, lands).value;
            ClaimsUnmoved(Put(w.t, id, w.rec), Put(w'.t, id, w'.rec)) && id in w'.t.recs
  {
  }

  lemma BurnUnmoved(w: Work, id: nat, venue: Venue, a: BuyAnswer, lands: bool)
    requires id in w.t.recs && BurnDue(w, id, venue, a, lands).Ok?
    ensures var w' := BurnDue(w, id, venue, a, lands).value;
            ClaimsUnmoved(Put(w.t, id, w.rec), Put(w'.t, id, w'.rec)) && id in w'.t.recs
  {
    if w.rec.pendingBurn != 0 && SatSub(w.t.now, w.rec.lastBurn) >= w.t.terms.minBurnInterval {
      var after := BurnSlice(w.t, id, w.rec.pendingBurn, venue, a).value;
      if after.Some? {
        VenueUnmoved(w.t, id, a.spent, a.arrived);
        BookUnmoved(w, id, after.value, lands);
      }
    }
  }

  lemma CloseUnmoved(w: Work, id: nat, protocolTakes: bool)
    requires Close(w, id, protocolTakes).Ok?
    ensures ClaimsUnmoved(Put(w.t, id, w.rec), Close(w, id, protocolTakes).value)
  {
  }

  lemma CompoundBacked(t: Treasury, id: nat, m: Market, late: nat)
    requires Backed(t, late) && Compound(t, id, m).Ok?
    ensures Backed(Compound(t, id, m).value, late)
  {
    HarvestBacked(t, late);
    var t1 := Harvest(t).value;
    SettleBacked(t1, id, late);
    CompoundCopyBacked(t1, id, Settle(t1.perShare, t1.recs[id]).value, m, late);
  }

  lemma CompoundCopyBacked(t: Treasury, id: nat, rec: Record, m: Market, late: nat)
    requires Backed(Put(t, id, rec), late) && id in t.recs && CompoundCopy(t, id, rec, m).Ok?
    ensures Backed(CompoundCopy(t, id, rec, m).value, late)
  {
    var w0 := Work(t, rec, false);
    SellBacked(w0, id, m.broker, m.keeperTakesSale, late);
    SoldStays(w0, id, m.broker, m.keeperTakesSale);
    FinishBacked(SellAccrued(w0, m.broker, m.keeperTakesSale).value, id, m, late);
  }

  lemma SoldStays(w: Work, id: nat, b: Broker, lands: bool)
    requires id in w.t.recs && SellAccrued(w, b, lands).Ok?
    ensures id in SellAccrued(w, b, lands).value.t.recs
  {
  }

  lemma FinishBacked(w: Work, id: nat, m: Market, late: nat)
    requires Backed(Put(w.t, id, w.rec), late) && id in w.t.recs
    requires BurnDue(w, id, m.venue, m.answer, m.keeperTakesSlice).Ok?
    requires Close(BurnDue(w, id, m.venue, m.answer, m.keeperTakesSlice).value, id, m.protocolTakes).Ok?
    ensures Backed(Close(BurnDue(w, id, m.venue, m.answer, m.keeperTakesSlice).value, id, m.protocolTakes).value, late)
  {
    var w' := BurnDue(w, id, m.venue, m.answer, m.keeperTakesSlice).value;
    BurnUnmoved(w, id, m.venue, m.answer, m.keeperTakesSlice);
    UnmovedBacked(Put(w.t, id, w.rec), Put(w'.t, id, w'.rec), late);
    CloseUnmoved(w', id, m.protocolTakes);
    UnmovedBacked(Put(w'.t, id, w'.rec), Close(w', id, m.protocolTakes).value, late);
  }

  lemma FeeBacked(t: Treasury, id: nat, amount: nat, late: nat)
    requires Backed(t, late) && Fee(t, id, amount).Ok?
    ensures Backed(Fee(t, id, amount).value, late)
  {
    var t' := Fee(t, id, amount).value;
    FeeClaims(t, id, amount);
    SumPut(t.recs, id, t'.recs[id], Accrued);
    SumPut(t.recs, id, t'.recs[id], Shares);
    SumPut(t.recs, id, t'.recs[id], Debt);
    forall i | i in t'.recs
      ensures DebtOk(t'.perShare, t'.recs[i])
    {
      assert i in t.recs ==> DebtOk(t.perShare, t.recs[i]);
    }
  }

  lemma FeeClaims(t: Treasury, id: nat, amount: nat)
    requires Fee(t, id, amount).Ok?
    ensures var t' := Fee(t, id, amount).value;
            && id in t'.recs && t'.recs == t.recs[id := t'.recs[id]] && t'.perShare == t.perShare
            && t'.accounted == t.accounted && t'.totalShares == t.totalShares
            && Get(t'.recs[id], Accrued) == At(t.recs, id, Accrued)
            && Get(t'.recs[id], Shares) == At(t.recs, id, Shares) && Get(t'.recs[id], Debt) == At(t.recs, id, Debt)
            && (t'.recs[id].shares == 0 || id in t.recs)
  {
  }

  lemma {:induction false} CreditsUnmoved(recs: map<nat, Record>, q: seq<Entry>, i: nat, w: nat, expected: nat,
                                          done: nat)
    requires i <= |q| && CreditFrom(recs, q, i, w, expected, done).Ok?
    ensures var r := CreditFrom(recs, q, i, w, expected, done).value;
            && r.Keys == recs.Keys
            && (forall id :: id in recs ==>
                  r[id] == recs[id].(pendingBurn := r[id].pendingBurn, status := r[id].status))
    decreases |q| - i
  {
    if i < |q| {
      var credit := if i + 1 == |q| then SatSub(w, done) else MulDiv(q[i].amount, w, expected).value;
      CreditsUnmoved(CreditRecord(recs, q[i].id, credit), q, i + 1, w, expected, SatAdd(done, credit));
    }
  }

  lemma FinalizeBacked(t: Treasury, id: nat, late: nat)
    requires Backed(t, late) && Finalize(t, id).Ok?
    ensures Backed(Finalize(t, id).value, late)
  {
    var m := DueEntries(t.queue, t.era, true);
    CreditsUnmoved(t.recs, m, 0, Withdraw(t.stake, t.era).value.amount, Expected(m), 0);
    UnmovedBacked(t, Finalize(t, id).value, late);
  }

  // ---- what the launches can claim ------------------------------------------------------------

  ghost function Claimables(recs: map<nat, Record>, perShare: nat): map<nat, nat> {
    map id | id in recs :: ClaimableOf(perShare, recs[id])
  }

  lemma ClaimWithin(p: nat, rec: Record)
    requires DebtOk(p, rec)
    ensures SCALE * ClaimableOf(p, rec) + SCALE * rec.lnrgDebt <= SCALE * rec.lnrgAccrued + p * rec.shares
  {
    FloorBounds(rec.shares * p, SCALE);
    FloorIff(rec.shares * p, SCALE, rec.lnrgDebt);
    assert p * rec.shares == rec.shares * p;
  }

  lemma {:induction false} ClaimsWithin(recs: map<nat, Record>, p: nat)
    requires forall id :: id in recs ==> DebtOk(p, recs[id])
    ensures SCALE * Total(Claimables(recs, p)) + SCALE * SumOf(recs, Debt)
            <= SCALE * SumOf(recs, Accrued) + p * SumOf(recs, Shares)
    decreases |recs|
  {
    if recs == map[] {
      SumEmpty(Debt);
      SumEmpty(Shares);
      SumEmpty(Accrued);
      assert Claimables(recs, p) == map[];
    } else {
      var id :| id in recs;
      var rest := recs - {id};
      ClaimsWithin(rest, p);
      ClaimWithin(p, recs[id]);
      assert Claimables(rest, p) == Claimables(recs, p) - {id};
      TotalRemove(Claimables(recs, p), id);
      SumDrop(recs, id, Debt);
      SumDrop(recs, id, Accrued);
      SumDrop(recs, id, Shares);
      MulSums(p, SumOf(rest, Shares), SumOf(recs, Shares), 0, recs[id].shares);
    }
  }

  lemma SumDrop(recs: map<nat, Record>, id: nat, f: Field)
    requires id in recs
    ensures SumOf(recs, f) == SumOf(recs - {id}, f) + Get(recs[id], f)
  {
    assert Column(recs - {id}, f) == Column(recs, f) - {id};
    TotalRemove(Column(recs, f), id);
  }

  /** What `late` floored checkpoints can add to the claims: less than one unit each, together rounded down. */
  function Dust(late: nat): nat {
    late * (SCALE - 1) / SCALE
  }

  /** All launches together can claim what is attributed and in the vault, and no more above it than the late stakes'
      dust: nothing at all for the first. */
  lemma ClaimsAreBacked(t: Treasury, late: nat)
    requires Solvent(t) && Backed(t, late)
    ensures Total(Claimables(t.recs, t.perShare)) <= t.accounted + Dust(late)
    ensures t.accounted <= t.lnrg
  {
    ClaimsWithin(t.recs, t.perShare);
    var claims := Total(Claimables(t.recs, t.perShare));
    if t.accounted < claims {
      FloorIff(late * (SCALE - 1), SCALE, claims - t.accounted);
    }
  }
}
