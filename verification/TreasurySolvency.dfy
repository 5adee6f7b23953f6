/** The vault always holds what its records and its ledger say: sums over the launches, call by call. */
module TreasurySolvency {
  import opened Arith
  import opened Results
  import opened Ledger
  import opened Staking
  import opened Broker
  import opened TreasurySpec

  // ---- sums over the launches -------------------------------------------------------

  datatype Field = Pending | Shares | Debt | Accrued | ToBurn

  function Get(r: Record, f: Field): nat {
    match f
    case Pending => r.pending
    case Shares => r.shares
    case Debt => r.lnrgDebt
    case Accrued => r.lnrgAccrued
    case ToBurn => r.pendingBurn
  }

  ghost function Column(recs: map<nat, Record>, f: Field): map<nat, nat> {
    map id | id in recs :: Get(recs[id], f)
  }

  ghost function SumOf(recs: map<nat, Record>, f: Field): nat {
    Total(Column(recs, f))
  }

  function At(recs: map<nat, Record>, id: nat, f: Field): nat {
    if id in recs then Get(recs[id], f) else 0
  }

  lemma SumPut(recs: map<nat, Record>, id: nat, rec: Record, f: Field)
    ensures SumOf(recs[id := rec], f) + At(recs, id, f) == SumOf(recs, f) + Get(rec, f)
  {
    assert Column(recs[id := rec], f) == Column(recs, f)[id := Get(rec, f)];
    TotalSet(Column(recs, f), id, Get(rec, f));
  }

  lemma AtMostSum(recs: map<nat, Record>, id: nat, f: Field)
    ensures At(recs, id, f) <= SumOf(recs, f)
  {
    if id in recs {
      TotalRemove(Column(recs, f), id);
    }
  }

  lemma SumEmpty(f: Field)
    ensures SumOf(map[], f) == 0
  {
    assert Column(map[], f) == map[];
  }

  // ---- solvency -----------------------------------------------------------------------

  /** The existential deposit once funded, every launch's pending and set-to-burn VTRS, and the whole ledger. */
  ghost function Reserved(t: Treasury): nat {
    (if t.funded then t.config.rules.ed else 0) + SumOf(t.recs, Pending) + SumOf(t.recs, ToBurn) + HeldBy(t.stake)
  }

  /** What the vault holds above that: sent by anyone, accounted to nobody. */
  ghost function Surplus(t: Treasury): int {
    t.vtrs - Reserved(t)
  }

  ghost predicate Solvent(t: Treasury) {
    Bounded(t) && Reserved(t) <= t.vtrs
  }

  /** Solvent but for the reserve. */
  predicate Bounded(t: Treasury) {
    && t.vtrs <= U128_MAX && t.lnrg <= U128_MAX && t.accounted <= t.lnrg && TermsInBounds(t.terms)
    && (!t.funded ==> t.recs == map[] && t.stake.None?)
  }

  /** Replacing a record moves the reserve by the difference. */
  lemma ReservePut(t: Treasury, id: nat, rec: Record)
    ensures Reserved(Put(t, id, rec)) + At(t.recs, id, Pending) + At(t.recs, id, ToBurn)
            == Reserved(t) + rec.pending + rec.pendingBurn
  {
    SumPut(t.recs, id, rec, Pending);
    SumPut(t.recs, id, rec, ToBurn);
  }

  lemma PutTwice(t: Treasury, id: nat, a: Record, b: Record)
    ensures Put(Put(t, id, a), id, b) == Put(t, id, b)
  {
  }

  /** What a record holds is within the reserve. */
  lemma RecordReserved(t: Treasury, id: nat)
    requires Solvent(t) && id in t.recs
    ensures t.recs[id].pending + t.recs[id].pendingBurn + HeldBy(t.stake) + t.config.rules.ed <= t.vtrs
  {
    AtMostSum(t.recs, id, Pending);
    AtMostSum(t.recs, id, ToBurn);
  }

  // ---- harvest, fees ----------------------------------------------------------------------

  lemma HarvestSolvent(t: Treasury)
    requires Solvent(t) && Harvest(t).Ok?
    ensures Solvent(Harvest(t).value) && Surplus(Harvest(t).value) == Surplus(t)
  {
  }

  /** A noted fee: exactly the amount joins the launch's pending, but for the deposit the first one withholds. */
  lemma FeeSolvent(t: Treasury, id: nat, amount: nat)
    requires Solvent(t) && Fee(t, id, amount).Ok?
    ensures Solvent(Fee(t, id, amount).value)
    ensures var t' := Fee(t, id, amount).value;
            && id in t'.recs
            && t'.recs[id].pending
               == At(t.recs, id, Pending) + (if t.funded then amount else SatSub(amount, t.config.rules.ed))
            && (t.funded || t.config.rules.ed <= amount ==> Surplus(t') == Surplus(t))
  {
    FeeJoins(t, id, amount);
    ReservePut(t.(vtrs := t.vtrs + amount, funded := true), id, Fee(t, id, amount).value.recs[id]);
    if !t.funded {
      SumEmpty(Pending);
      SumEmpty(ToBurn);
    }
  }

  /** What a noted fee leaves of its record and around it. */
  lemma FeeJoins(t: Treasury, id: nat, amount: nat)
    requires Solvent(t) && Fee(t, id, amount).Ok?
    ensures var t' := Fee(t, id, amount).value;
            && id in t'.recs && t' == Put(t.(vtrs := t.vtrs + amount, funded := true), id, t'.recs[id])
            && t'.recs[id].pending
               == At(t.recs, id, Pending) + (if t.funded then amount else SatSub(amount, t.config.rules.ed))
            && t'.recs[id].pendingBurn == At(t.recs, id, ToBurn) && t'.vtrs <= U128_MAX
            && t.config.rules.ed <= t'.vtrs
  {
    AtMostSum(t.recs, id, Pending);
  }

  // ---- stake ----------------------------------------------------------------------------------

  lemma RetargetKeepsTotals(t: Treasury)
    ensures var t' := Recooperate(t);
            && HeldBy(t'.stake) == HeldBy(t.stake) && ActiveOf(t'.stake) == ActiveOf(t.stake)
            && t'.stake.Some? == t.stake.Some?
            && t' == t.(stake := t'.stake, stale := t'.stale)
  {
  }

  lemma RecooperateSolvent(t: Treasury)
    requires Solvent(t)
    ensures Solvent(Recooperate(t)) && Surplus(Recooperate(t)) == Surplus(t)
  {
    RetargetKeepsTotals(t);
  }

  /** A covered bond takes the whole of what was asked. */
  lemma BondTakesAll(t: Treasury, value: nat)
    requires value + HeldBy(t.stake) <= t.vtrs && BondMore(t, value).Ok?
    ensures var l := BondMore(t, value).value;
            && l.active == ActiveOf(t.stake) + value && TotalOf(l) == HeldBy(t.stake) + value
            && l == (if t.stake.Some? then t.stake.value.(active := l.active) else Stake(l.active, [], false, []))
  {
    if t.stake.None? {
      assert Amounts([]) == 0;
    }
  }

  /** The state a covered bond leaves, before the cooperation follows. */
  function Bonded(t: Treasury, id: nat, minted: Record, shares: nat, l: Stake): Treasury {
    Put(t, id, minted).(totalShares := SatAdd(t.totalShares, shares), stake := Some(l))
  }

  lemma BondPendingIs(t: Treasury, id: nat, rec: Record)
    requires rec.pending + HeldBy(t.stake) <= t.vtrs && BondPending(t, id, rec).Ok?
    ensures 0 < rec.pending && BondMore(t, rec.pending).Ok?
    ensures SharesFor(rec.pending, t.totalShares, ActiveOf(t.stake)).Ok?
    ensures var shares := SharesFor(rec.pending, t.totalShares, ActiveOf(t.stake)).value;
            && Minted(t.perShare, rec, 0, shares).Ok?
            && BondPending(t, id, rec).value
               == Recooperate(Bonded(t, id, Minted(t.perShare, rec, 0, shares).value, shares,
                                     BondMore(t, rec.pending).value))
  {
    BondTakesAll(t, rec.pending);
  }

  lemma BondPendingSolvent(t: Treasury, id: nat, rec: Record)
    requires Solvent(t) && id in t.recs && rec.pending == t.recs[id].pending
    requires rec.pendingBurn == t.recs[id].pendingBurn && BondPending(t, id, rec).Ok?
    ensures Solvent(BondPending(t, id, rec).value) && Surplus(BondPending(t, id, rec).value) == Surplus(t)
    ensures var t' := BondPending(t, id, rec).value;
            && id in t'.recs && t'.recs[id].pending == 0 && 0 < rec.pending
            && ActiveOf(t'.stake) == ActiveOf(t.stake) + rec.pending
            && HeldBy(t'.stake) == HeldBy(t.stake) + rec.pending
  {
    RecordReserved(t, id);
    BondPendingIs(t, id, rec);
    BondTakesAll(t, rec.pending);
    var shares := SharesFor(rec.pending, t.totalShares, ActiveOf(t.stake)).value;
    var minted := Minted(t.perShare, rec, 0, shares).value;
    var t1 := Bonded(t, id, minted, shares, BondMore(t, rec.pending).value);
    ReservePut(t, id, minted);
    assert Solvent(t1);
    RetargetKeepsTotals(t1);
  }

  /** A successful stake bonds exactly the whole of the launch's pending. */
  lemma StakeBondsAll(t: Treasury, id: nat)
    requires Solvent(t) && StakePending(t, id).Ok?
    ensures Solvent(StakePending(t, id).value) && Surplus(StakePending(t, id).value) == Surplus(t)
    ensures var t' := StakePending(t, id).value;
            && id in t.recs && id in t'.recs && 0 < t.recs[id].pending && t'.recs[id].pending == 0
            && ActiveOf(t'.stake) == ActiveOf(t.stake) + t.recs[id].pending
            && HeldBy(t'.stake) == HeldBy(t.stake) + t.recs[id].pending
  {
    HarvestSolvent(t);
    var t1 := Harvest(t).value;
    BondPendingSolvent(t1, id, Settle(t1.perShare, t.recs[id]).value);
  }

  /** The keeper's part of an amount that its call moved. */
  function KeeperPart(amount: nat, bountyBps: nat): nat {
    amount * bountyBps / 10_000
  }

  // ---- compound -------------------------------------------------------------------------------

  /** The local copy agrees with storage on what a fee underneath may change, and the vault covers it. */
  ghost predicate WorkOk(w: Work, id: nat) {
    && id in w.t.recs && w.t.funded && w.t.recs[id].pending == w.rec.pending && w.t.recs[id].status == w.rec.status
    && Solvent(Put(w.t, id, w.rec))
  }

  /** The surplus with the local copy in the record's place. */
  ghost function SurplusIn(w: Work, id: nat): int {
    Surplus(Put(w.t, id, w.rec))
  }

  lemma StartWork(t: Treasury, id: nat, rec: Record)
    requires Solvent(t) && id in t.recs && rec.pending == t.recs[id].pending && rec.status == t.recs[id].status
    requires rec.pendingBurn == t.recs[id].pendingBurn
    ensures WorkOk(Work(t, rec, false), id) && SurplusIn(Work(t, rec, false), id) == Surplus(t)
  {
    ReservePut(t, id, rec);
  }

  /** What the vault has above its lock covers every launch's payable amounts. */
  lemma WorkCovers(w: Work, id: nat)
    requires WorkOk(w, id)
    ensures w.rec.pending + w.rec.pendingBurn + Locked(w.t) <= w.t.vtrs <= U128_MAX
  {
    RecordReserved(Put(w.t, id, w.rec), id);
  }

  /** A sale leaves the vault covered. */
  lemma BookSaleSolvent(w: Work, id: nat, x: nat, out: nat, lands: bool)
    requires WorkOk(w, id) && w.t.vtrs + out <= U128_MAX && BookSale(w, x, out, lands).Ok?
    ensures WorkOk(BookSale(w, x, out, lands).value, id)
    ensures SurplusIn(BookSale(w, x, out, lands).value, id) == SurplusIn(w, id)
    ensures BookSale(w, x, out, lands).value.t.vtrs <= w.t.vtrs + out
  {
    WorkCovers(w, id);
    MulDivAtMost(out, w.t.terms.keeperBountyBps, BPS);
    var w' := BookSale(w, x, out, lands).value;
    ReservePut(w.t, id, w.rec);
    ReservePut(w'.t, id, w'.rec);
  }

  lemma SellSolvent(w: Work, id: nat, b: Broker, lands: bool)
    requires WorkOk(w, id) && SellAccrued(w, b, lands).Ok?
    ensures var w' := SellAccrued(w, b, lands).value;
            WorkOk(w', id) && w'.t.vtrs <= w.t.vtrs + b.depth && SurplusIn(w', id) == SurplusIn(w, id)
  {
    var sale := Sellable(b, Min(w.rec.lnrgAccrued, CanPartWith(w.t)));
    if sale.Some? {
      var x, q := sale.value.amount, sale.value.quote;
      SizedSaleGoesThrough(b, w.rec.lnrgAccrued, CanPartWith(w.t), SatSub(q, q / 1_000));
      BookSaleSolvent(w, id, x, q, lands);
    }
  }

  /** What a slice's reading misses: the balance before it and the fee that came back, past 128 bits. */
  function Missed(vtrs: nat, arrived: nat): nat {
    SatSub(vtrs + arrived, U128_MAX)
  }

  /** What the call reads back after a buy is what the buy did, the fee that arrived underneath and the amount spent,
      but for what the balance and the fee together exceed 128 bits by. */
  lemma SliceIsMeasured(w: Work, id: nat, y: nat, a: BuyAnswer)
    requires WorkOk(w, id) && a.Bought? && y <= w.rec.pendingBurn && Deliverable(w.t, id, y, a)
    ensures var after := AfterVenue(w.t, id, a.spent, a.arrived);
            && id in after.recs && after.recs[id].pending == w.rec.pending + a.arrived
            && Missed(w.t.vtrs, a.arrived) <= a.arrived
            && SatSub(SatAdd(w.t.vtrs, a.arrived), after.vtrs) == a.spent - Missed(w.t.vtrs, a.arrived)
            && after == Put(w.t, id, after.recs[id]).(vtrs := w.t.vtrs - a.spent + a.arrived)
            && after.recs[id] == w.t.recs[id].(pending := w.rec.pending + a.arrived)
  {
    WorkCovers(w, id);
  }

  /** A slice that is read in full keeps the vault covered; what the reading misses is missing from the surplus. */
  lemma BookSliceSolvent(w: Work, id: nat, y: nat, a: BuyAnswer, lands: bool)
    requires WorkOk(w, id) && a.Bought? && y <= w.rec.pendingBurn && Deliverable(w.t, id, y, a)
    requires BookSlice(w, id, AfterVenue(w.t, id, a.spent, a.arrived), lands).Ok?
    ensures var w' := BookSlice(w, id, AfterVenue(w.t, id, a.spent, a.arrived), lands).value;
            && SurplusIn(w', id) == SurplusIn(w, id) - Missed(w.t.vtrs, a.arrived)
            && Bounded(Put(w'.t, id, w'.rec))
            && (Missed(w.t.vtrs, a.arrived) == 0 ==> WorkOk(w', id))
  {
    var w' := BookSlice(w, id, AfterVenue(w.t, id, a.spent, a.arrived), lands).value;
    BookSliceIs(w, id, y, a, lands);
    ReservePut(w.t, id, w.rec);
    ReservePut(w.t, id, w'.rec);
  }

  /** What a booked slice leaves of the copy and of the storage around it, and what its reading missed. */
  lemma BookSliceIs(w: Work, id: nat, y: nat, a: BuyAnswer, lands: bool)
    requires WorkOk(w, id) && a.Bought? && y <= w.rec.pendingBurn && Deliverable(w.t, id, y, a)
    requires BookSlice(w, id, AfterVenue(w.t, id, a.spent, a.arrived), lands).Ok?
    ensures var w' := BookSlice(w, id, AfterVenue(w.t, id, a.spent, a.arrived), lands).value;
            && Put(w'.t, id, w'.rec) == Put(w.t, id, w'.rec).(vtrs := w'.t.vtrs) && w'.t.vtrs <= w.t.vtrs
            && id in w'.t.recs && w'.t.recs[id].pending == w'.rec.pending && w'.t.recs[id].status == w'.rec.status
            && w'.t.vtrs - w'.rec.pending - w'.rec.pendingBurn + Missed(w.t.vtrs, a.arrived)
               == w.t.vtrs - w.rec.pending - w.rec.pendingBurn
  {
    SliceIsMeasured(w, id, y, a);
    WorkCovers(w, id);
    var after := AfterVenue(w.t, id, a.spent, a.arrived);
    PutTwice(w.t, id, after.recs[id], BookSlice(w, id, after, lands).value.rec);
  }

  /** What is set to burn is due, and the venue takes some of it. */
  predicate TakesSlice(w: Work, id: nat, venue: Venue, a: BuyAnswer) {
    var y := SliceOf(w.rec.pendingBurn, venue, w.t.terms.maxBurnImpactBps);
    && w.rec.pendingBurn != 0 && SatSub(w.t.now, w.rec.lastBurn) >= w.t.terms.minBurnInterval
    && 0 < y && a.Bought? && Deliverable(w.t, id, y, a)
  }

  /** What a due slice's reading misses, if one is taken. */
  function MissedBy(w: Work, id: nat, venue: Venue, a: BuyAnswer): nat {
    if TakesSlice(w, id, venue, a) then Missed(w.t.vtrs, a.arrived) else 0
  }

  lemma BurnSolvent(w: Work, id: nat, venue: Venue, a: BuyAnswer, lands: bool)
    requires WorkOk(w, id) && BurnDue(w, id, venue, a, lands).Ok?
    ensures SurplusIn(BurnDue(w, id, venue, a, lands).value, id) == SurplusIn(w, id) - MissedBy(w, id, venue, a)
    ensures MissedBy(w, id, venue, a) == 0 ==> WorkOk(BurnDue(w, id, venue, a, lands).value, id)
    ensures var w' := BurnDue(w, id, venue, a, lands).value; Bounded(Put(w'.t, id, w'.rec))
  {
    if TakesSlice(w, id, venue, a) {
      BookSliceSolvent(w, id, SliceOf(w.rec.pendingBurn, venue, w.t.terms.maxBurnImpactBps), a, lands);
    }
  }

  lemma CloseSolvent(w: Work, id: nat, protocolTakes: bool)
    requires Close(w, id, protocolTakes).Ok?
    ensures Surplus(Close(w, id, protocolTakes).value) == SurplusIn(w, id)
    ensures Bounded(Put(w.t, id, w.rec)) ==> Bounded(Close(w, id, protocolTakes).value)
  {
    if Sweepable(w.t, w.rec) {
      var t' := w.t.(vtrs := w.t.vtrs - w.rec.pendingBurn);
      ReservePut(w.t, id, w.rec);
      ReservePut(t', id, w.rec.(pendingBurn := 0));
    }
  }

  /** The settled copy of a compound call once its rewards are sold. */
  function SoldCopy(t: Treasury, id: nat, m: Market): Result<Work, Error> {
    if id !in t.recs then Err(NoTreasury)
    else
      var t1 :- Harvest(t);
      var rec :- Settle(t1.perShare, t1.recs[id]);
      SellAccrued(Work(t1, rec, false), m.broker, m.keeperTakesSale)
  }

  /** What a compound call's reading of its slice misses. */
  function MissedIn(t: Treasury, id: nat, m: Market): nat {
    var w := SoldCopy(t, id, m);
    if w.Ok? then MissedBy(w.value, id, m.venue, m.answer) else 0
  }

  /** The balance a slice is measured against and the fee that comes back fit 128 bits together. */
  predicate Measurable(t: Treasury, id: nat, m: Market) {
    MissedIn(t, id, m) == 0
  }

  /** A compound call moves the surplus by what it misses of its slice and by nothing else; it stays solvent exactly
      when the surplus covers that. */
  lemma CompoundSolvent(t: Treasury, id: nat, m: Market)
    requires Solvent(t) && Compound(t, id, m).Ok?
    ensures Surplus(Compound(t, id, m).value) == Surplus(t) - MissedIn(t, id, m)
    ensures Solvent(Compound(t, id, m).value) <==> MissedIn(t, id, m) <= Surplus(t)
  {
    HarvestSolvent(t);
    var t1 := Harvest(t).value;
    var w0 := Work(t1, Settle(t1.perShare, t1.recs[id]).value, false);
    StartWork(t1, id, w0.rec);
    SellSolvent(w0, id, m.broker, m.keeperTakesSale);
    var w1 := SellAccrued(w0, m.broker, m.keeperTakesSale).value;
    BurnSolvent(w1, id, m.venue, m.answer, m.keeperTakesSlice);
    CloseSolvent(BurnDue(w1, id, m.venue, m.answer, m.keeperTakesSlice).value, id, m.protocolTakes);
  }

  /** Room in the vault for what the broker can pay and for the largest slice is enough, whatever the venue answers. */
  lemma RoomIsMeasurable(t: Treasury, id: nat, m: Market)
    requires Solvent(t)
    requires t.vtrs + m.broker.depth + SliceOf(t.vtrs + m.broker.depth, m.venue, t.terms.maxBurnImpactBps) <= U128_MAX
    ensures Measurable(t, id, m)
  {
    if SoldCopy(t, id, m).Ok? {
      SoldCopyFits(t, id, m);
      RoomIsRead(SoldCopy(t, id, m).value, id, m.venue, m.answer);
    }
  }

  lemma SoldCopyFits(t: Treasury, id: nat, m: Market)
    requires Solvent(t) && SoldCopy(t, id, m).Ok?
    ensures var w := SoldCopy(t, id, m).value;
            w.t.terms == t.terms && w.rec.pendingBurn <= w.t.vtrs <= t.vtrs + m.broker.depth
  {
    HarvestSolvent(t);
    var t1 := Harvest(t).value;
    var w0 := Work(t1, Settle(t1.perShare, t1.recs[id]).value, false);
    StartWork(t1, id, w0.rec);
    SellSolvent(w0, id, m.broker, m.keeperTakesSale);
    WorkCovers(SellAccrued(w0, m.broker, m.keeperTakesSale).value, id);
    SellKeepsTerms(w0, m.broker, m.keeperTakesSale);
  }

  lemma RoomIsRead(w: Work, id: nat, venue: Venue, a: BuyAnswer)
    requires w.t.vtrs + SliceOf(w.rec.pendingBurn, venue, w.t.terms.maxBurnImpactBps) <= U128_MAX
    ensures MissedBy(w, id, venue, a) == 0
  {
  }

  lemma SellKeepsTerms(w: Work, b: Broker, lands: bool)
    requires SellAccrued(w, b, lands).Ok?
    ensures SellAccrued(w, b, lands).value.t.terms == w.t.terms
  {
  }

  // ---- payments are never refused for want of funds -------------------------------------------

  /** A slice is always covered: a venue that takes no more than offered takes nothing that is reserved or locked. */
  lemma SliceIsCovered(w: Work, id: nat, venue: Venue, spent: nat)
    requires WorkOk(w, id) && spent <= SliceOf(w.rec.pendingBurn, venue, w.t.terms.maxBurnImpactBps)
    ensures spent <= w.rec.pendingBurn && spent + Locked(w.t) <= w.t.vtrs
  {
    WorkCovers(w, id);
  }

  /** A retired launch gets no fee back, so its slices are always read in full. */
  lemma RetiredIsMeasured(w: Work, id: nat, venue: Venue, a: BuyAnswer, lands: bool)
    requires WorkOk(w, id) && BurnDue(w, id, venue, a, lands).Ok?
    requires BurnDue(w, id, venue, a, lands).value.rec.status == Retired
    ensures MissedBy(w, id, venue, a) == 0
  {
    WorkCovers(w, id);
  }

  /** A buy that takes no more than it was offered and returns no more than it took, to a launch that takes fees. */
  predicate Honest(t: Treasury, id: nat, y: nat, a: BuyAnswer) {
    a.Bought? && 0 < y ==> 0 < a.spent <= y && a.arrived <= a.spent && (a.arrived > 0 ==> TakesFees(t, id))
  }

  // ---- retire -----------------------------------------------------------------------------------

  lemma UnstakeKeepsTotal(t: Treasury, v: nat)
    requires Unstake(t, v).Ok?
    ensures t.stake.Some? && TotalOf(Unstake(t, v).value) == HeldBy(t.stake)
  {
    var chilled := if SatSub(ActiveOf(t.stake), v) < t.config.rules.minCoopBond && IsCooperating(t.stake)
    then t.stake.value.(cooperating := false, targets := []) else t.stake.value;
    UnbondKeepsTotal(t.config.rules, Some(chilled), v, t.era);
  }

  lemma RedeemedSolvent(t: Treasury, id: nat, rec: Record, status: Status)
    requires Solvent(t) && id in t.recs && rec.pending == t.recs[id].pending
    requires rec.pendingBurn == t.recs[id].pendingBurn
    ensures Solvent(Put(t, id, Redeemed(rec, status))) && Surplus(Put(t, id, Redeemed(rec, status))) == Surplus(t)
    ensures Redeemed(rec, status).pendingBurn == rec.pendingBurn + rec.pending
  {
    RecordReserved(t, id);
    ReservePut(t, id, Redeemed(rec, status));
  }

  lemma EnqueueSolvent(t: Treasury, id: nat, rec: Record, v: nat)
    requires Solvent(t) && id in t.recs && rec.pending == t.recs[id].pending
    requires rec.pendingBurn == t.recs[id].pendingBurn && Enqueue(t, id, rec, v).Ok?
    ensures Solvent(Enqueue(t, id, rec, v).value) && Surplus(Enqueue(t, id, rec, v).value) == Surplus(t)
  {
    UnstakeKeepsTotal(t, v);
    RedeemedSolvent(t, id, rec, Retiring(t.era + t.config.rules.bondingDuration));
  }

  lemma RetireIsRedeem(t: Treasury, id: nat, lastTrade: Option<nat>)
    requires Retire(t, id, lastTrade).Ok?
    ensures Harvest(t).Ok? && id in t.recs && t.recs[id].status == Active
    ensures var t1 := Harvest(t).value;
            && t1 == t.(perShare := t1.perShare, accounted := t1.accounted)
            && Settle(t1.perShare, t.recs[id]).Ok?
            && var rec := Settle(t1.perShare, t.recs[id]).value;
               && rec == t.recs[id].(lnrgAccrued := rec.lnrgAccrued, lnrgDebt := rec.lnrgDebt)
               && RedeemShares(t1, id, rec).Ok?
               && var t2 := RedeemShares(t1, id, rec).value;
                  Retire(t, id, lastTrade).value == if IsCooperating(t2.stake) then Recooperate(t2) else t2
  {
  }

  lemma RedeemIs(t: Treasury, id: nat, rec: Record)
    requires RedeemShares(t, id, rec).Ok?
    ensures ValueOf(rec.shares, t.totalShares, ActiveOf(t.stake)).Ok?
    ensures var t' := RedeemShares(t, id, rec).value;
            && id in t'.recs
            && t' == Put(t, id, Redeemed(rec, t'.recs[id].status))
                     .(totalShares := SatSub(t.totalShares, rec.shares), stake := t'.stake, queue := t'.queue)
            && (|| (t'.recs[id].status == Retired && t'.queue == t.queue)
                || (&& t'.recs[id].status == Retiring(t.era + t.config.rules.bondingDuration)
                    && |t.queue| < t.config.rules.maxChunks
                    && 0 < ValueOf(rec.shares, t.totalShares, ActiveOf(t.stake)).value
                    && t'.queue == t.queue + [Entry(id, t'.recs[id].status.chunkEra,
                                                    ValueOf(rec.shares, t.totalShares, ActiveOf(t.stake)).value)]))
  {
  }

  lemma RedeemSolvent(t: Treasury, id: nat, rec: Record)
    requires Solvent(t) && id in t.recs && rec.pending == t.recs[id].pending
    requires rec.pendingBurn == t.recs[id].pendingBurn && RedeemShares(t, id, rec).Ok?
    ensures Solvent(RedeemShares(t, id, rec).value) && Surplus(RedeemShares(t, id, rec).value) == Surplus(t)
  {
    var v := ValueOf(rec.shares, t.totalShares, ActiveOf(t.stake)).value;
    if v == 0 {
      RedeemedSolvent(t, id, rec, Retired);
    } else {
      EnqueueSolvent(t, id, rec, v);
    }
  }

  lemma RetireSolvent(t: Treasury, id: nat, lastTrade: Option<nat>)
    requires Solvent(t) && Retire(t, id, lastTrade).Ok?
    ensures Solvent(Retire(t, id, lastTrade).value) && Surplus(Retire(t, id, lastTrade).value) == Surplus(t)
  {
    HarvestSolvent(t);
    RetireIsRedeem(t, id, lastTrade);
    var t1 := Harvest(t).value;
    var rec := Settle(t1.perShare, t.recs[id]).value;
    RedeemSolvent(t1, id, rec);
    RecooperateSolvent(RedeemShares(t1, id, rec).value);
  }

  // ---- finalize ---------------------------------------------------------------------------------

  /** What the entries unbonded, in all. */
  function Unbonded(q: seq<Entry>): nat {
    if q == [] then 0 else Unbonded(q[..|q| - 1]) + q[|q| - 1].amount
  }

  function ShareOf(e: Entry, w: nat, expected: nat): nat
    requires expected > 0
  {
    e.amount * w / expected
  }

  /** Sum of the first entries' floor shares. */
  function FloorShares(q: seq<Entry>, w: nat, expected: nat): nat
    requires expected > 0
  {
    if q == [] then 0 else FloorShares(q[..|q| - 1], w, expected) + ShareOf(q[|q| - 1], w, expected)
  }

  /** What the `i`-th entry is credited: its floor share, or for the last what the others leave. */
  function CreditOf(q: seq<Entry>, i: nat, w: nat, expected: nat): nat
    requires expected > 0 && i < |q|
  {
    if i + 1 == |q| then SatSub(w, FloorShares(q[..i], w, expected)) else ShareOf(q[i], w, expected)
  }

  lemma {:induction false} ExpectedIsCapped(q: seq<Entry>)
    ensures Expected(q) == Min(Unbonded(q), U128_MAX)
  {
    if q != [] {
      ExpectedIsCapped(q[..|q| - 1]);
    }
  }

  lemma {:induction false} FloorSharesWithin(q: seq<Entry>, w: nat, expected: nat)
    requires expected > 0
    ensures FloorShares(q, w, expected) * expected <= Unbonded(q) * w
    ensures Unbonded(q) * w <= FloorShares(q, w, expected) * expected + |q| * expected
  {
    if q != [] {
      var head, last := q[..|q| - 1], q[|q| - 1].amount;
      FloorSharesWithin(head, w, expected);
      var part := ShareOf(q[|q| - 1], w, expected);
      assert part * expected <= last * w <= part * expected + expected by {
        FloorBounds(last * w, expected);
      }
      ScaledStep(FloorShares(head, w, expected), Unbonded(head), |head|, last, part, w, expected);
      assert FloorShares(q, w, expected) == FloorShares(head, w, expected) + part;
      assert Unbonded(q) == Unbonded(head) + last && |q| == |head| + 1;
    }
  }

  /** The first entries' shares never exceed what came back while what they unbonded fits 128 bits. */
  lemma FloorSharesFit(q: seq<Entry>, n: nat, w: nat)
    requires n <= |q| && Expected(q) > 0 && Unbonded(q[..n]) <= U128_MAX
    ensures FloorShares(q[..n], w, Expected(q)) <= w
  {
    ExpectedIsCapped(q);
    UnbondedPrefix(q, n);
    FloorSharesWithin(q[..n], w, Expected(q));
    MulMono(Unbonded(q[..n]), Expected(q), w);
    MulCancel(FloorShares(q[..n], w, Expected(q)), w, Expected(q));
  }

  lemma {:induction false} UnbondedPrefix(q: seq<Entry>, n: nat)
    requires n <= |q|
    ensures Unbonded(q[..n]) <= Unbonded(q)
    decreases |q|
  {
    if n < |q| {
      assert q[..|q| - 1][..n] == q[..n];
      UnbondedPrefix(q[..|q| - 1], n);
    } else {
      assert q[..n] == q;
    }
  }

  // ---- the chain around it ----------------------------------------------------------------------

  lemma SlashSolvent(t: Treasury, bps: nat)
    requires Solvent(t) && SlashVault(t, bps).Ok?
    ensures Solvent(SlashVault(t, bps).value) && Surplus(SlashVault(t, bps).value) == Surplus(t)
  {
    SlashLowers(t.stake.value, bps);
  }
}
