/** Retirement: one queue entry a retiring launch, withdrawn stake credited to the unit, and no way back. */
module TreasuryRetirement {
  import opened Arith
  import opened Results
  import opened Staking
  import opened Broker
  import opened TreasurySpec
  import opened TreasurySolvency
  import opened TreasuryBacking

  // ---- the queue and the statuses ---------------------------------------------------

  ghost predicate Distinct(q: seq<Entry>) {
    forall i, j :: 0 <= i < j < |q| ==> q[i].id != q[j].id
  }

  ghost predicate Names(q: seq<Entry>, id: nat) {
    exists i :: 0 <= i < |q| && q[i].id == id
  }

  predicate EntryOk(recs: map<nat, Record>, e: Entry) {
    e.id in recs && recs[e.id].status == Retiring(e.era) && 0 < e.amount <= U128_MAX
  }

  /** A launch that is no longer active has nothing staked and nothing pending; a retiring one is queued. */
  ghost predicate RecordOk(recs: map<nat, Record>, q: seq<Entry>, id: nat)
    requires id in recs
  {
    var r := recs[id];
    && (r.status != Active ==> r.shares == 0 && r.pending == 0 && r.lnrgDebt == 0)
    && (r.status.Retiring? ==> Names(q, id))
    && r.lnrgAccrued <= U128_MAX
  }

  ghost predicate QueueOk(t: Treasury) {
    && |t.queue| <= t.config.rules.maxChunks && Distinct(t.queue)
    && (forall i :: 0 <= i < |t.queue| ==> EntryOk(t.recs, t.queue[i]))
    && (forall id :: id in t.recs ==> RecordOk(t.recs, t.queue, id))
  }

  /** A launch is retiring exactly when one entry names it, with its era and a positive amount. */
  lemma RetiringIffQueued(t: Treasury, id: nat)
    requires QueueOk(t)
    ensures id in t.recs && t.recs[id].status.Retiring? <==> Names(t.queue, id)
    ensures forall i, j :: 0 <= i < |t.queue| && 0 <= j < |t.queue| && t.queue[i].id == id && t.queue[j].id == id ==>
                             i == j && t.recs[id].status == Retiring(t.queue[i].era) && 0 < t.queue[i].amount
  {
    if id in t.recs {
      assert RecordOk(t.recs, t.queue, id);
    }
    forall i | 0 <= i < |t.queue|
      ensures EntryOk(t.recs, t.queue[i])
    {
    }
  }

  /** One launch's record changes within its status, no longer active launches staying empty. */
  lemma SameStatusQueue(t: Treasury, t': Treasury, id: nat)
    requires QueueOk(t) && t'.queue == t.queue && t'.config == t.config && id in t'.recs
    requires t'.recs == t.recs[id := t'.recs[id]]
    requires if id in t.recs then t'.recs[id].status == t.recs[id].status else t'.recs[id].status == Active
    requires t'.recs[id].status != Active ==>
               t'.recs[id].shares == 0 && t'.recs[id].pending == 0 && t'.recs[id].lnrgDebt == 0
    requires t'.recs[id].lnrgAccrued <= U128_MAX
    ensures QueueOk(t')
  {
    forall i | 0 <= i < |t'.queue|
      ensures EntryOk(t'.recs, t'.queue[i])
    {
      assert EntryOk(t.recs, t.queue[i]);
    }
    forall i | i in t'.recs
      ensures RecordOk(t'.recs, t'.queue, i)
    {
      assert i in t.recs ==> RecordOk(t.recs, t.queue, i);
    }
  }

  lemma FeeQueue(t: Treasury, id: nat, amount: nat)
    requires QueueOk(t) && Fee(t, id, amount).Ok?
    ensures QueueOk(Fee(t, id, amount).value)
  {
    if id in t.recs {
      assert RecordOk(t.recs, t.queue, id);
    }
    SameStatusQueue(t, Fee(t, id, amount).value, id);
  }

  lemma StakeShape(t: Treasury, id: nat)
    requires StakePending(t, id).Ok?
    ensures var t' := StakePending(t, id).value;
            && id in t.recs && t.recs[id].status == Active && id in t'.recs && t'.recs[id].status == Active
            && t'.recs[id].lnrgAccrued <= U128_MAX
            && t'.recs == t.recs[id := t'.recs[id]] && t'.queue == t.queue && t'.config == t.config
            && t'.targets == t.targets
  {
    StakeIsBond(t, id);
    var t1 := Harvest(t).value;
    BondShape(t1, id, Settle(t1.perShare, t.recs[id]).value);
  }

  lemma BondShape(t: Treasury, id: nat, rec: Record)
    requires BondPending(t, id, rec).Ok?
    ensures var t' := BondPending(t, id, rec).value;
            && id in t'.recs && t'.recs == t.recs[id := t'.recs[id]] && t'.recs[id].status == rec.status
            && t'.recs[id].lnrgAccrued == rec.lnrgAccrued
            && t'.queue == t.queue && t'.config == t.config && t'.targets == t.targets
  {
  }

  lemma StakeQueue(t: Treasury, id: nat)
    requires QueueOk(t) && StakePending(t, id).Ok?
    ensures QueueOk(StakePending(t, id).value)
  {
    StakeShape(t, id);
    SameStatusQueue(t, StakePending(t, id).value, id);
  }

  // ---- compound on a retired or retiring launch -------------------------------------------

  /** Retiring before retired, then less reward to sell, then less to burn. */
  function Rank(s: Status): nat {
    match s
    case Active => 2
    case Retiring(_) => 1
    case Retired => 0
  }

  predicate Below(r': Record, r: Record) {
    || Rank(r'.status) < Rank(r.status)
    || (r'.status == r.status && r'.lnrgAccrued < r.lnrgAccrued)
    || (r'.status == r.status && r'.lnrgAccrued == r.lnrgAccrued && r'.pendingBurn < r.pendingBurn)
  }

  /** The local copy after part of a compound: same status, nothing staked if not active, nearer its end if done. */
  ghost predicate Nearer(w: Work, start: Record) {
    && w.rec.status == start.status && w.rec.shares == start.shares && w.rec.lnrgDebt == start.lnrgDebt
    && w.rec.lnrgAccrued <= start.lnrgAccrued
    && (start.status != Active ==>
          && w.rec.pending == start.pending
          && (if w.done then Below(w.rec, start)
              else w.rec.lnrgAccrued == start.lnrgAccrued && w.rec.pendingBurn == start.pendingBurn))
  }

  /** The vault's balance is a balance, and the local copy agrees with storage on what a fee may change. */
  predicate CopyOk(w: Work, id: nat) {
    && w.t.vtrs <= U128_MAX
    && id in w.t.recs && w.t.recs[id].pending == w.rec.pending && w.t.recs[id].status == w.rec.status
  }

  lemma SellNearer(w: Work, id: nat, b: Broker, lands: bool, start: Record)
    requires CopyOk(w, id) && Nearer(w, start) && !w.done && SellAccrued(w, b, lands).Ok?
    ensures Nearer(SellAccrued(w, b, lands).value, start) && CopyOk(SellAccrued(w, b, lands).value, id)
  {
    var sale := Sellable(b, Min(w.rec.lnrgAccrued, CanPartWith(w.t)));
    if sale.Some? {
      var q := sale.value.quote;
      SizedSaleGoesThrough(b, w.rec.lnrgAccrued, CanPartWith(w.t), SatSub(q, q / 1_000));
    }
  }

  lemma BelowTwice(a: Record, b: Record, c: Record)
    requires Below(a, b) && Below(b, c)
    ensures Below(a, c)
  {
  }

  /** A slice of a launch that is no longer active: no fee comes back, and what was spent is read in full. */
  lemma IdleSlice(w: Work, id: nat, y: nat, a: BuyAnswer, lands: bool)
    requires CopyOk(w, id) && w.rec.status != Active && a.Bought? && y <= w.rec.pendingBurn
    requires Deliverable(w.t, id, y, a) && BookSlice(w, id, AfterVenue(w.t, id, a.spent, a.arrived), lands).Ok?
    ensures var w' := BookSlice(w, id, AfterVenue(w.t, id, a.spent, a.arrived), lands).value;
            && w'.rec == w.rec.(pendingBurn := w'.rec.pendingBurn, lastBurn := w.t.now)
            && w'.rec.pendingBurn <= w.rec.pendingBurn - a.spent && w'.done
  {
  }

  lemma BurnNearer(w: Work, id: nat, venue: Venue, a: BuyAnswer, lands: bool, start: Record)
    requires CopyOk(w, id) && Nearer(w, start) && BurnDue(w, id, venue, a, lands).Ok?
    ensures Nearer(BurnDue(w, id, venue, a, lands).value, start)
    ensures BurnDue(w, id, venue, a, lands).value.t.vtrs <= U128_MAX
  {
    if w.rec.status != Active && TakesSlice(w, id, venue, a) {
      IdleSlice(w, id, SliceOf(w.rec.pendingBurn, venue, w.t.terms.maxBurnImpactBps), a, lands);
      var w' := BurnDue(w, id, venue, a, lands).value;
      if w.done {
        BelowTwice(w'.rec, w.rec, start);
      }
    }
  }

  /** What a compound call makes of a record: within its status, and for a launch that is no longer active strictly
      nearer its end. */
  ghost predicate Compounded(start: Record, r': Record) {
    && r'.status == start.status && r'.shares == start.shares && r'.lnrgDebt == start.lnrgDebt
    && r'.lnrgAccrued <= start.lnrgAccrued
    && (start.status != Active ==> Below(r', start) && r'.pending == start.pending)
  }

  lemma CloseNearer(w: Work, id: nat, protocolTakes: bool, start: Record)
    requires Nearer(w, start) && Close(w, id, protocolTakes).Ok?
    ensures id in Close(w, id, protocolTakes).value.recs
    ensures Compounded(start, Close(w, id, protocolTakes).value.recs[id])
    ensures Close(w, id, protocolTakes).value.vtrs <= w.t.vtrs
  {
    if w.done && w.rec.pendingBurn > 0 && start.status != Active {
      BelowTwice(w.rec.(pendingBurn := 0), w.rec, start);
    }
  }

  /** A compound call is a sale, a slice and a close over the settled copy. */
  lemma CompoundStages(t: Treasury, id: nat, m: Market)
    requires Compound(t, id, m).Ok?
    ensures id in t.recs && Harvest(t).Ok?
    ensures var t1 := Harvest(t).value;
            && t1 == t.(perShare := t1.perShare, accounted := t1.accounted)
            && Settle(t1.perShare, t.recs[id]).Ok?
            && var w1 := SellAccrued(Work(t1, Settle(t1.perShare, t.recs[id]).value, false), m.broker,
                                     m.keeperTakesSale);
               && w1.Ok?
               && var w2 := BurnDue(w1.value, id, m.venue, m.answer, m.keeperTakesSlice);
                  w2.Ok? && Compound(t, id, m) == Close(w2.value, id, m.protocolTakes)
  {
  }

  /** What a compound call leaves of the storage around its record. */
  lemma WorkShape(t: Treasury, id: nat, m: Market)
    requires Compound(t, id, m).Ok?
    ensures var t' := Compound(t, id, m).value;
            id in t.recs && id in t'.recs && t'.recs == t.recs[id := t'.recs[id]] && Around(t, t')
  {
    CompoundStages(t, id, m);
    var t1 := Harvest(t).value;
    var w0 := Work(t1, Settle(t1.perShare, t.recs[id]).value, false);
    SellShape(w0, m.broker, m.keeperTakesSale);
    var w1 := SellAccrued(w0, m.broker, m.keeperTakesSale).value;
    BurnShape(w1, id, m.venue, m.answer, m.keeperTakesSlice);
    CloseShape(BurnDue(w1, id, m.venue, m.answer, m.keeperTakesSlice).value, id, m.protocolTakes);
  }

  ghost predicate Around(t: Treasury, t': Treasury) {
    && t'.queue == t.queue && t'.config == t.config && t'.stake == t.stake && t'.stale == t.stale
    && t'.targets == t.targets && t'.totalShares == t.totalShares && (t.funded ==> t'.funded)
    && t'.now == t.now
  }

  lemma SellShape(w: Work, b: Broker, lands: bool)
    requires SellAccrued(w, b, lands).Ok?
    ensures Around(w.t, SellAccrued(w, b, lands).value.t) && SellAccrued(w, b, lands).value.t.recs == w.t.recs
  {
  }

  lemma BurnShape(w: Work, id: nat, venue: Venue, a: BuyAnswer, lands: bool)
    requires id in w.t.recs && BurnDue(w, id, venue, a, lands).Ok?
    ensures var w' := BurnDue(w, id, venue, a, lands).value;
            && Around(w.t, w'.t) && id in w'.t.recs && w'.t.recs == w.t.recs[id := w'.t.recs[id]]
  {
    assert w.t.recs[id := w.t.recs[id]] == w.t.recs;
    if w.rec.pendingBurn != 0 && SatSub(w.t.now, w.rec.lastBurn) >= w.t.terms.minBurnInterval {
      var after := BurnSlice(w.t, id, w.rec.pendingBurn, venue, a).value;
      if after.Some? {
        VenueUnmoved(w.t, id, a.spent, a.arrived);
      }
    }
  }

  lemma CloseShape(w: Work, id: nat, protocolTakes: bool)
    requires Close(w, id, protocolTakes).Ok?
    ensures var t' := Close(w, id, protocolTakes).value;
            Around(w.t, t') && id in t'.recs && t'.recs == w.t.recs[id := t'.recs[id]]
  {
  }

  /** A retiring or retired launch has nothing to settle. */
  lemma SettleIdle(p: nat, rec: Record)
    requires rec.shares == 0 && rec.lnrgDebt == 0 && rec.lnrgAccrued <= U128_MAX && Settle(p, rec).Ok?
    ensures Settle(p, rec).value == rec
  {
  }

  /** A compound call leaves its record below the settled copy it started from, and the balance within 128 bits. */
  lemma CompoundNearer(t: Treasury, id: nat, m: Market)
    requires t.vtrs <= U128_MAX && Compound(t, id, m).Ok?
    ensures id in t.recs && Harvest(t).Ok? && Settle(Harvest(t).value.perShare, t.recs[id]).Ok?
    ensures id in Compound(t, id, m).value.recs && Compound(t, id, m).value.vtrs <= U128_MAX
    ensures Compounded(Settle(Harvest(t).value.perShare, t.recs[id]).value, Compound(t, id, m).value.recs[id])
  {
    CompoundStages(t, id, m);
    var t1 := Harvest(t).value;
    var start := Settle(t1.perShare, t.recs[id]).value;
    var w0 := Work(t1, start, false);
    SellNearer(w0, id, m.broker, m.keeperTakesSale, start);
    var w1 := SellAccrued(w0, m.broker, m.keeperTakesSale).value;
    BurnNearer(w1, id, m.venue, m.answer, m.keeperTakesSlice, start);
    CloseNearer(BurnDue(w1, id, m.venue, m.answer, m.keeperTakesSlice).value, id, m.protocolTakes, start);
  }

  /** Every successful compound call on a launch that is no longer active brings it strictly nearer its end, and keeps
      it empty: however the broker and the venue answer, whatever the vault owes. */
  lemma CompoundDescends(t: Treasury, id: nat, m: Market)
    requires QueueOk(t) && t.vtrs <= U128_MAX && Compound(t, id, m).Ok?
    requires id in t.recs && t.recs[id].status != Active
    ensures id in Compound(t, id, m).value.recs
    ensures var r, r' := t.recs[id], Compound(t, id, m).value.recs[id];
            && Below(r', r) && r'.status == r.status && r'.shares == 0 && r'.pending == 0 && r'.lnrgDebt == 0
  {
    assert RecordOk(t.recs, t.queue, id);
    CompoundNearer(t, id, m);
    SettleIdle(Harvest(t).value.perShare, t.recs[id]);
  }

  lemma CompoundQueue(t: Treasury, id: nat, m: Market)
    requires QueueOk(t) && t.vtrs <= U128_MAX && Compound(t, id, m).Ok?
    ensures QueueOk(Compound(t, id, m).value) && Compound(t, id, m).value.vtrs <= U128_MAX
  {
    WorkShape(t, id, m);
    assert RecordOk(t.recs, t.queue, id);
    CompoundNearer(t, id, m);
    if t.recs[id].status != Active {
      SettleIdle(Harvest(t).value.perShare, t.recs[id]);
    }
    SameStatusQueue(t, Compound(t, id, m).value, id);
  }

  // ---- retire -----------------------------------------------------------------------------------

  /** An active launch leaves for the queue's end, or straight for its close. */
  lemma LeavingQueue(t: Treasury, t': Treasury, id: nat, v: nat)
    requires QueueOk(t) && id in t.recs && t.recs[id].status == Active && id in t'.recs && t'.config == t.config
    requires t'.recs == t.recs[id := t'.recs[id]] && 0 < v <= U128_MAX
    requires var r := t'.recs[id];
             && r.shares == 0 && r.pending == 0 && r.lnrgDebt == 0 && r.lnrgAccrued <= U128_MAX
             && (|| (r.status == Retired && t'.queue == t.queue)
                 || (&& r.status.Retiring? && |t.queue| < t.config.rules.maxChunks
                     && t'.queue == t.queue + [Entry(id, r.status.chunkEra, v)]))
    ensures QueueOk(t')
  {
    RetiringIffQueued(t, id);
    forall i | 0 <= i < |t'.queue|
      ensures EntryOk(t'.recs, t'.queue[i])
    {
      if i < |t.queue| {
        assert EntryOk(t.recs, t.queue[i]);
        assert t'.queue[i] == t.queue[i];
      }
    }
    forall i | i in t'.recs
      ensures RecordOk(t'.recs, t'.queue, i)
    {
      if i != id {
        assert RecordOk(t.recs, t.queue, i);
        if t.recs[i].status.Retiring? {
          NamesGrow(t.queue, t'.queue, i);
        }
      } else if t'.recs[id].status.Retiring? {
        assert t'.queue[|t.queue|].id == id;
      }
    }
  }

  /** Redeeming an active launch's shares queues it once, with what it unbonded, or closes it. */
  lemma RedeemQueue(t: Treasury, id: nat, rec: Record)
    requires QueueOk(t) && id in t.recs && t.recs[id].status == Active && RedeemShares(t, id, rec).Ok?
    requires rec.lnrgAccrued <= U128_MAX
    ensures QueueOk(RedeemShares(t, id, rec).value)
  {
    var t' := RedeemShares(t, id, rec).value;
    RedeemIs(t, id, rec);
    var v := ValueOf(rec.shares, t.totalShares, ActiveOf(t.stake)).value;
    LeavingQueue(t, t', id, if v == 0 then 1 else v);
  }

  lemma NamesGrow(q: seq<Entry>, q': seq<Entry>, id: nat)
    requires Names(q, id) && q <= q'
    ensures Names(q', id)
  {
    var i :| 0 <= i < |q| && q[i].id == id;
    assert q'[i].id == id;
  }

  lemma RetireQueue(t: Treasury, id: nat, lastTrade: Option<nat>)
    requires QueueOk(t) && Retire(t, id, lastTrade).Ok?
    ensures QueueOk(Retire(t, id, lastTrade).value)
    ensures id in t.recs && t.recs[id].status == Active
    ensures id in Retire(t, id, lastTrade).value.recs
    ensures Retire(t, id, lastTrade).value.recs[id].status != Active
    ensures Retire(t, id, lastTrade).value.recs == t.recs[id := Retire(t, id, lastTrade).value.recs[id]]
  {
    RetireIsRedeem(t, id, lastTrade);
    var t1 := Harvest(t).value;
    var rec := Settle(t1.perShare, t.recs[id]).value;
    RedeemIs(t1, id, rec);
    RedeemQueue(t1, id, rec);
    RetargetKeepsTotals(RedeemShares(t1, id, rec).value);
  }
}
