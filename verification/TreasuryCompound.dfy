/** A compound call from the outside: what it sells, buys, pays and leaves, in plain sums over what a caller can read,
    and exactly when it goes through. */
module TreasuryCompound {
  import opened Arith
  import opened Results
  import opened Broker
  import opened TreasurySpec
  import opened TreasurySolvency
  import opened TreasuryEffects

  // ---- the sums -----------------------------------------------------------------------

  /** What is sold of the accrued rewards, for how much, and the keeper's part of that. */
  datatype Sold = Sold(amount: nat, quote: nat, bounty: nat)

  function SaleOf(t: Treasury, accrued: nat, m: Market): Sold {
    match Sellable(m.broker, Min(accrued, SatSub(t.lnrg, t.config.lnrgMinimum)))
    case None => Sold(0, 0, 0)
    case Some(s) =>
      Sold(s.amount, s.quote, if m.keeperTakesSale then KeeperPart(s.quote, t.terms.keeperBountyBps) else 0)
  }

  /** What a slice may offer: all there is to burn, within half of the lower of the impact term and just under twice the
      venue's fee, of the venue's reserve. */
  function Offer(toBurn: nat, venue: Venue, termBps: nat): nat {
    match venue
    case NoVenue => 0
    case Venue(reserve, feeBps) => Min(toBurn, reserve * Min(termBps, SatSub(2 * feeBps, 1)) / 20_000)
  }

  /** One compound call: the sale, what there is to burn then, the slice offered (none if not due), what is read as
      spent on it, the keeper's part of that, and what is left to burn. */
  datatype Plan = Plan(sold: Sold, toBurn: nat, offer: nat, bought: bool, read: nat, bounty: nat, rest: nat)

  /** The vault's balance once the sale is paid. */
  function VaultAfterSale(t: Treasury, s: Sold): nat {
    t.vtrs + SatSub(s.quote, s.bounty)
  }

  function PlanOf(t: Treasury, rec: Record, m: Market): Plan {
    var s := SaleOf(t, rec.lnrgAccrued, m);
    var toBurn := rec.pendingBurn + SatSub(s.quote, s.bounty);
    var dueNow := 0 < toBurn && t.terms.minBurnInterval <= SatSub(t.now, rec.lastBurn);
    var offer := if dueNow then Offer(toBurn, m.venue, t.terms.maxBurnImpactBps) else 0;
    var bought := 0 < offer && m.answer.Bought?;
    var read := if bought then SatSub(m.answer.spent, Missed(VaultAfterSale(t, s), m.answer.arrived)) else 0;
    var left := SatSub(toBurn, read);
    var part := KeeperPart(read, t.terms.keeperBountyBps);
    var bounty := if bought && m.keeperTakesSlice && part <= left then part else 0;
    Plan(s, toBurn, offer, bought, read, bounty, left - bounty)
  }

  /** The fee that comes back with a slice. */
  function ArrivedIn(p: Plan, m: Market): nat {
    if p.bought && m.answer.Bought? then m.answer.arrived else 0
  }

  function SpentIn(p: Plan, m: Market): nat {
    if p.bought && m.answer.Bought? then m.answer.spent else 0
  }

  /** A retired launch with nothing but dust left: the protocol gets it and the record is empty. */
  predicate Sweeps(t: Treasury, rec: Record, m: Market) {
    var p := PlanOf(t, rec, m);
    && rec.status == Retired && rec.shares == 0 && rec.pending + ArrivedIn(p, m) == 0
    && rec.lnrgAccrued == p.sold.amount && 0 < p.rest < t.config.rules.ed
  }

  /** The venue did not fail an offer that was made: it had no quote, or took some of it and no more, and sent back a
      fee only to a launch that takes fees, and no more than it took. */
  predicate VenueHonest(p: Plan, rec: Record, a: BuyAnswer) {
    0 < p.offer ==>
      || a.CannotQuote?
      || (&& a.Bought? && 0 < a.spent <= p.offer && a.arrived <= a.spent
          && (a.arrived > 0 ==> rec.status == Active))
  }

  // ---- the three stages -----------------------------------------------------------------

  lemma SaleIs(w: Work, id: nat, m: Market)
    requires WorkOk(w, id)
    ensures var s, r := SaleOf(w.t, w.rec.lnrgAccrued, m), SellAccrued(w, m.broker, m.keeperTakesSale);
            && s.bounty <= s.quote && s.amount <= w.rec.lnrgAccrued && s.amount <= w.t.lnrg
            && (s.amount == 0 <==> s.quote == 0)
            && (r.Ok? <==> w.t.vtrs + s.quote <= U128_MAX)
            && (r.Ok? ==>
                  && r.value.t == w.t.(vtrs := VaultAfterSale(w.t, s), lnrg := w.t.lnrg - s.amount,
                                       accounted := SatSub(w.t.accounted, s.amount))
                  && r.value.rec == w.rec.(lnrgAccrued := w.rec.lnrgAccrued - s.amount,
                                           pendingBurn := w.rec.pendingBurn + s.quote - s.bounty)
                  && r.value.done == (w.done || 0 < s.amount))
  {
    WorkCovers(w, id);
    var sale := Sellable(m.broker, Min(w.rec.lnrgAccrued, CanPartWith(w.t)));
    if sale.Some? {
      var q := sale.value.quote;
      SizedSaleGoesThrough(m.broker, w.rec.lnrgAccrued, CanPartWith(w.t), SatSub(q, q / 1_000));
      PartIsSmall(q, w.t.terms.keeperBountyBps);
      if w.t.vtrs + q <= U128_MAX {
        BookedSale(w, id, sale.value.amount, q, m.keeperTakesSale);
      }
    }
  }

  lemma BookedSale(w: Work, id: nat, x: nat, out: nat, lands: bool)
    requires WorkOk(w, id) && w.t.vtrs + out <= U128_MAX && x <= w.t.lnrg && x <= w.rec.lnrgAccrued
    ensures var r := BookSale(w, x, out, lands);
            var bounty := if lands then KeeperPart(out, w.t.terms.keeperBountyBps) else 0;
            && bounty <= out && r.Ok? && r.value.done
            && r.value.t == w.t.(vtrs := w.t.vtrs + out - bounty, lnrg := w.t.lnrg - x,
                                 accounted := SatSub(w.t.accounted, x))
            && r.value.rec == w.rec.(lnrgAccrued := w.rec.lnrgAccrued - x,
                                     pendingBurn := w.rec.pendingBurn + out - bounty)
  {
    WorkCovers(w, id);
    PartIsSmall(out, w.t.terms.keeperBountyBps);
  }

  lemma PartIsSmall(amount: nat, bountyBps: nat)
    requires bountyBps <= BPS
    ensures KeeperPart(amount, bountyBps) <= amount
    ensures amount <= U128_MAX ==> MulDiv(amount, bountyBps, BPS) == Ok(KeeperPart(amount, bountyBps))
  {
    MulDivAtMost(amount, bountyBps, BPS);
  }

  /** The slice the code sizes is the offer above. */
  lemma OfferIsSlice(toBurn: nat, venue: Venue, termBps: nat)
    ensures SliceOf(toBurn, venue, termBps) == Offer(toBurn, venue, termBps) <= toBurn
  {
  }

  /** The offer a settled copy makes. */
  function OfferOf(w: Work, m: Market): nat {
    if 0 < w.rec.pendingBurn && w.t.terms.minBurnInterval <= SatSub(w.t.now, w.rec.lastBurn)
    then Offer(w.rec.pendingBurn, m.venue, w.t.terms.maxBurnImpactBps) else 0
  }

  /** What a taken slice leaves of the copy and around it. */
  ghost predicate SliceTaken(w: Work, w': Work, id: nat, m: Market, read: nat, bounty: nat)
    requires id in w.t.recs && m.answer.Bought?
  {
    var a := m.answer;
    && w'.done && a.spent + bounty <= w.t.vtrs + a.arrived && read + bounty <= w.rec.pendingBurn
    && w'.t == Put(w.t, id, w.t.recs[id].(pending := w.rec.pending + a.arrived))
               .(vtrs := w.t.vtrs + a.arrived - a.spent - bounty)
    && w'.rec == w.rec.(pending := w.rec.pending + a.arrived, pendingBurn := w.rec.pendingBurn - read - bounty,
                        lastBurn := w.t.now)
  }

  /** The keeper's part of a slice, if enough is left for it. */
  function SliceBounty(w: Work, m: Market, read: nat): nat {
    var part := KeeperPart(read, w.t.terms.keeperBountyBps);
    if m.keeperTakesSlice && part <= SatSub(w.rec.pendingBurn, read) then part else 0
  }

  lemma BookedSlice(w: Work, id: nat, y: nat, m: Market)
    requires WorkOk(w, id) && m.answer.Bought? && y <= w.rec.pendingBurn && Deliverable(w.t, id, y, m.answer)
    ensures var r := BookSlice(w, id, AfterVenue(w.t, id, m.answer.spent, m.answer.arrived), m.keeperTakesSlice);
            var read := SatSub(m.answer.spent, Missed(w.t.vtrs, m.answer.arrived));
            r.Ok? && SliceTaken(w, r.value, id, m, read, SliceBounty(w, m, read))
  {
    var a := m.answer;
    SliceIsMeasured(w, id, y, a);
    WorkCovers(w, id);
    BookedFrom(w, id, AfterVenue(w.t, id, a.spent, a.arrived), m, a.spent - Missed(w.t.vtrs, a.arrived));
  }

  /** A slice as it is booked, given what was read of the balance and of the storage after it. */
  lemma BookedFrom(w: Work, id: nat, after: Treasury, m: Market, read: nat)
    requires id in after.recs && id in w.t.recs && m.answer.Bought? && read <= U128_MAX
    requires after.recs[id] == w.t.recs[id].(pending := w.rec.pending + m.answer.arrived)
    requires after == Put(w.t, id, after.recs[id]).(vtrs := after.vtrs) && TermsInBounds(w.t.terms)
    requires after.vtrs + m.answer.spent == w.t.vtrs + m.answer.arrived
    requires SatSub(SatAdd(w.t.vtrs, m.answer.arrived), after.vtrs) == read <= w.rec.pendingBurn
    requires w.rec.pendingBurn - read + Locked(w.t) <= after.vtrs
    ensures var r := BookSlice(w, id, after, m.keeperTakesSlice);
            r.Ok? && SliceTaken(w, r.value, id, m, read, SliceBounty(w, m, read))
  {
    PartIsSmall(read, w.t.terms.keeperBountyBps);
  }

  lemma SliceIs(w: Work, id: nat, m: Market)
    requires WorkOk(w, id)
    ensures var y, r := OfferOf(w, m), BurnDue(w, id, m.venue, m.answer, m.keeperTakesSlice);
            && (r.Ok? <==> (0 < y ==>
                              || m.answer.CannotQuote?
                              || (m.answer.Bought? && Honest(w.t, id, y, m.answer))))
            && (r.Ok? && !(0 < y && m.answer.Bought?) ==> r.value == w)
            && (r.Ok? && 0 < y && m.answer.Bought? ==>
                  var read := SatSub(m.answer.spent, Missed(w.t.vtrs, m.answer.arrived));
                  SliceTaken(w, r.value, id, m, read, SliceBounty(w, m, read)))
  {
    var y, a := OfferOf(w, m), m.answer;
    OfferIsSlice(w.rec.pendingBurn, m.venue, w.t.terms.maxBurnImpactBps);
    if 0 < y && a.Bought? {
      if Honest(w.t, id, y, a) {
        SliceIsCovered(w, id, m.venue, a.spent);
        BookedSlice(w, id, y, m);
      }
    }
  }

  lemma CloseIs(w: Work, id: nat, protocolTakes: bool)
    requires w.rec.status == Retired ==> w.rec.pendingBurn + Locked(w.t) <= w.t.vtrs
    ensures var dust := && w.rec.status == Retired && w.rec.shares == 0 && w.rec.lnrgAccrued == 0
                        && 0 < w.rec.pendingBurn < w.t.config.rules.ed && w.rec.pending == 0;
            var r := Close(w, id, protocolTakes);
            && (r.Ok? <==> if dust then protocolTakes else w.done)
            && (r.Ok? ==> r.value == if dust then Put(w.t.(vtrs := w.t.vtrs - w.rec.pendingBurn), id,
                                                      w.rec.(pendingBurn := 0))
                                     else Put(w.t, id, w.rec))
  {
  }

  // ---- the whole call over a settled copy --------------------------------------------------

  /** `t'` is `t` after the plan was carried out on a settled record. */
  ghost predicate Carried(t: Treasury, t': Treasury, id: nat, rec: Record, m: Market) {
    var p := PlanOf(t, rec, m);
    var swept := if Sweeps(t, rec, m) then p.rest else 0;
    && p.sold.amount <= rec.lnrgAccrued && p.sold.amount <= t.lnrg && p.sold.bounty <= p.sold.quote
    && t'.vtrs == VaultAfterSale(t, p.sold) + ArrivedIn(p, m) - SpentIn(p, m) - p.bounty - swept
    && id in t'.recs
    && t'.recs[id] == rec.(pending := rec.pending + ArrivedIn(p, m), lnrgAccrued := rec.lnrgAccrued - p.sold.amount,
                           pendingBurn := p.rest - swept, lastBurn := if p.bought then t.now else rec.lastBurn)
    && t' == t.(vtrs := t'.vtrs, lnrg := t.lnrg - p.sold.amount, accounted := SatSub(t.accounted, p.sold.amount),
                recs := t.recs[id := t'.recs[id]])
  }

  /** A sold copy makes the offer of the plan, to the same venue. */
  lemma SoldPlans(w: Work, w1: Work, id: nat, m: Market)
    requires WorkOk(w, id) && SellAccrued(w, m.broker, m.keeperTakesSale) == Ok(w1)
    ensures var p := PlanOf(w.t, w.rec, m);
            && w1.rec.pendingBurn == p.toBurn && OfferOf(w1, m) == p.offer && w1.t.vtrs == VaultAfterSale(w.t, p.sold)
            && w1.t.terms == w.t.terms && w1.rec.status == w.rec.status
            && (p.bought ==>
                  && p.read == SatSub(m.answer.spent, Missed(w1.t.vtrs, m.answer.arrived))
                  && p.bounty == SliceBounty(w1, m, p.read))
            && (!p.bought ==> p.read == 0 && p.bounty == 0)
            && p.rest == SatSub(p.toBurn, p.read) - p.bounty
  {
    SaleIs(w, id, m);
  }

  /** A slice as planned: taken, or not. */
  ghost predicate SlicedAs(w1: Work, w2: Work, id: nat, m: Market, p: Plan, now: nat) {
    && id in w1.t.recs && SpentIn(p, m) + p.bounty <= w1.t.vtrs + ArrivedIn(p, m)
    && w2.t == Put(w1.t, id, w1.t.recs[id].(pending := w1.rec.pending + ArrivedIn(p, m)))
               .(vtrs := w1.t.vtrs + ArrivedIn(p, m) - SpentIn(p, m) - p.bounty)
    && w2.rec == w1.rec.(pending := w1.rec.pending + ArrivedIn(p, m), pendingBurn := p.rest,
                         lastBurn := if p.bought then now else w1.rec.lastBurn)
    && w2.done == (w1.done || p.bought)
  }

  lemma TakenAsPlanned(w1: Work, w2: Work, id: nat, m: Market, p: Plan)
    requires id in w1.t.recs && m.answer.Bought? && p.bought && SliceTaken(w1, w2, id, m, p.read, p.bounty)
    requires p.rest == SatSub(w1.rec.pendingBurn, p.read) - p.bounty
    ensures SlicedAs(w1, w2, id, m, p, w1.t.now)
  {
  }

  lemma IdleAsPlanned(w1: Work, id: nat, m: Market, p: Plan)
    requires id in w1.t.recs && w1.t.recs[id].pending == w1.rec.pending && !p.bought
    requires p.bounty == 0 && p.rest == w1.rec.pendingBurn
    ensures SlicedAs(w1, w1, id, m, p, w1.t.now)
  {
    assert w1.t.recs[id := w1.t.recs[id]] == w1.t.recs;
  }

  /** A slice as the copy takes it is a slice as planned. */
  lemma PlannedSlice(w: Work, w1: Work, w2: Work, id: nat, m: Market)
    requires WorkOk(w, id) && SellAccrued(w, m.broker, m.keeperTakesSale) == Ok(w1) && WorkOk(w1, id)
    requires BurnDue(w1, id, m.venue, m.answer, m.keeperTakesSlice) == Ok(w2)
    ensures SlicedAs(w1, w2, id, m, PlanOf(w.t, w.rec, m), w.t.now)
  {
    var p := PlanOf(w.t, w.rec, m);
    SoldPlans(w, w1, id, m);
    SoldAsIs(w, w1, id, m);
    SliceIs(w1, id, m);
    if p.bought {
      TakenAsPlanned(w1, w2, id, m, p);
    } else {
      IdleAsPlanned(w1, id, m, p);
    }
  }

  lemma SoldAsIs(w: Work, w1: Work, id: nat, m: Market)
    requires WorkOk(w, id) && SellAccrued(w, m.broker, m.keeperTakesSale) == Ok(w1)
    ensures w1.t.now == w.t.now && id in w1.t.recs && w1.t.recs[id].pending == w1.rec.pending
  {
    SaleIs(w, id, m);
  }

  /** What a slice leaves is payable: it is read in full, or its launch still takes fees. */
  lemma RestIsPayable(w1: Work, w2: Work, id: nat, m: Market)
    requires WorkOk(w1, id) && BurnDue(w1, id, m.venue, m.answer, m.keeperTakesSlice) == Ok(w2)
    ensures w2.rec.status == Retired ==> w2.rec.pendingBurn + Locked(w2.t) <= w2.t.vtrs
  {
    BurnSolvent(w1, id, m.venue, m.answer, m.keeperTakesSlice);
    if w2.rec.status == Retired {
      RetiredIsMeasured(w1, id, m.venue, m.answer, m.keeperTakesSlice);
      WorkCovers(w2, id);
    }
  }

  lemma CompoundCopyIs(t: Treasury, id: nat, rec: Record, m: Market)
    requires WorkOk(Work(t, rec, false), id)
    ensures var p, r := PlanOf(t, rec, m), CompoundCopy(t, id, rec, m);
            && (r.Ok? <==>
                  && t.vtrs + p.sold.quote <= U128_MAX && VenueHonest(p, rec, m.answer)
                  && (if Sweeps(t, rec, m) then m.protocolTakes else 0 < p.sold.amount || p.bought))
            && (r.Ok? ==> Carried(t, r.value, id, rec, m))
  {
    var w := Work(t, rec, false);
    SaleIs(w, id, m);
    var r1 := SellAccrued(w, m.broker, m.keeperTakesSale);
    if r1.Ok? {
      SellSolvent(w, id, m.broker, m.keeperTakesSale);
      VenueIs(w, r1.value, id, m);
      var r2 := BurnDue(r1.value, id, m.venue, m.answer, m.keeperTakesSlice);
      if r2.Ok? {
        WorkedCopy(w, r1.value, r2.value, id, m);
        RestIsPayable(r1.value, r2.value, id, m);
        ClosedCopy(t, rec, r2.value, id, m);
      }
    }
  }

  /** A slice is not refused exactly when the venue is honest. */
  lemma VenueIs(w: Work, w1: Work, id: nat, m: Market)
    requires WorkOk(w, id) && SellAccrued(w, m.broker, m.keeperTakesSale) == Ok(w1) && WorkOk(w1, id)
    ensures BurnDue(w1, id, m.venue, m.answer, m.keeperTakesSlice).Ok? <==>
            VenueHonest(PlanOf(w.t, w.rec, m), w.rec, m.answer)
  {
    SoldPlans(w, w1, id, m);
    SliceIs(w1, id, m);
  }

  /** The copy and the storage around it after the sale and the slice, as planned. */
  ghost predicate Worked(t: Treasury, rec: Record, w: Work, id: nat, m: Market) {
    var p := PlanOf(t, rec, m);
    && p.sold.amount <= rec.lnrgAccrued && p.sold.amount <= t.lnrg && p.sold.bounty <= p.sold.quote
    && id in w.t.recs && w.done == (0 < p.sold.amount || p.bought)
    && SpentIn(p, m) + p.bounty <= VaultAfterSale(t, p.sold) + ArrivedIn(p, m)
    && w.t == t.(vtrs := VaultAfterSale(t, p.sold) + ArrivedIn(p, m) - SpentIn(p, m) - p.bounty,
                 lnrg := t.lnrg - p.sold.amount, accounted := SatSub(t.accounted, p.sold.amount),
                 recs := t.recs[id := w.t.recs[id]])
    && w.rec == rec.(pending := rec.pending + ArrivedIn(p, m), lnrgAccrued := rec.lnrgAccrued - p.sold.amount,
                     pendingBurn := p.rest, lastBurn := if p.bought then t.now else rec.lastBurn)
  }

  lemma WorkedCopy(w: Work, w1: Work, w2: Work, id: nat, m: Market)
    requires WorkOk(w, id) && SellAccrued(w, m.broker, m.keeperTakesSale) == Ok(w1) && WorkOk(w1, id) && !w.done
    requires BurnDue(w1, id, m.venue, m.answer, m.keeperTakesSlice) == Ok(w2)
    ensures Worked(w.t, w.rec, w2, id, m)
  {
    SaleIs(w, id, m);
    PlannedSlice(w, w1, w2, id, m);
  }

  /** The dust of a copy is swept where the plan sweeps. */
  lemma ClosedCopy(t: Treasury, rec: Record, w: Work, id: nat, m: Market)
    requires Worked(t, rec, w, id, m) && (w.rec.status == Retired ==> w.rec.pendingBurn + Locked(w.t) <= w.t.vtrs)
    ensures var p, r := PlanOf(t, rec, m), Close(w, id, m.protocolTakes);
            && (r.Ok? <==> if Sweeps(t, rec, m) then m.protocolTakes else 0 < p.sold.amount || p.bought)
            && (r.Ok? ==> Carried(t, r.value, id, rec, m))
  {
    CloseIs(w, id, m.protocolTakes);
    assert Sweepable(w.t, w.rec) == Sweeps(t, rec, m);
    var r := Close(w, id, m.protocolTakes);
    if r.Ok? {
      assert r.value.recs == t.recs[id := r.value.recs[id]];
    }
  }

  // ---- the call -------------------------------------------------------------------------

  /** A compound call goes through exactly when its launch is funded and its claim can be settled, the vault has room
      for what is sold, the venue deals honestly with a due slice, and something is sold, or bought, or the protocol
      takes the last dust; and it then does what the plan says and nothing else. */
  lemma CompoundWorksIff(t: Treasury, id: nat, m: Market)
    requires Solvent(t)
    ensures Compound(t, id, m).Ok? <==>
            && id in t.recs && ClaimFits(t, id)
            && var rec := SettledRecord(t, id);
               var p := PlanOf(Harvested(t), rec, m);
               && t.vtrs + p.sold.quote <= U128_MAX && VenueHonest(p, rec, m.answer)
               && (if Sweeps(Harvested(t), rec, m) then m.protocolTakes else 0 < p.sold.amount || p.bought)
    ensures Compound(t, id, m).Ok? ==>
              Carried(Harvested(t), Compound(t, id, m).value, id, SettledRecord(t, id), m)
  {
    if id in t.recs {
      SettleIs(t, id);
      if ClaimFits(t, id) {
        HarvestSolvent(t);
        StartWork(Harvested(t), id, SettledRecord(t, id));
        CompoundCopyIs(Harvested(t), id, SettledRecord(t, id), m);
      }
    }
  }

  /** A slice of what is set to burn is due, and an honest venue buys with it. */
  predicate DueSlice(t: Treasury, id: nat, m: Market)
    requires id in t.recs
  {
    var rec := t.recs[id];
    var y, a := Offer(rec.pendingBurn, m.venue, t.terms.maxBurnImpactBps), m.answer;
    && 0 < rec.pendingBurn && t.terms.minBurnInterval <= SatSub(t.now, rec.lastBurn)
    && a.Bought? && 0 < a.spent <= y && a.arrived <= a.spent && (a.arrived > 0 ==> rec.status == Active)
  }

  /** A due slice that an honest venue buys is always taken, whatever the launch's status: the call goes through, the
      burn clock is stamped, and what is set to burn falls by at least what was spent, but for what is not read and
      for what a sale beside it realised. The broker's depth must fit the vault and the protocol's account stand ready
      for dust. */
  lemma DueSliceIsTaken(t: Treasury, id: nat, m: Market)
    requires Solvent(t) && id in t.recs && ClaimFits(t, id) && DueSlice(t, id, m)
    requires t.vtrs + m.broker.depth <= U128_MAX && m.protocolTakes
    ensures Compound(t, id, m).Ok?
    ensures var t', sold := Compound(t, id, m).value, SaleOf(t, SettledRecord(t, id).lnrgAccrued, m);
            && id in t'.recs && t'.recs[id].lastBurn == t.now
            && t'.recs[id].pendingBurn + m.answer.spent
               <= t.recs[id].pendingBurn + sold.quote
                  + Missed(VaultAfterSale(t, sold), m.answer.arrived)
            && (t.recs[id].status != Active ==>
                  t'.recs[id].pendingBurn + m.answer.spent <= t.recs[id].pendingBurn + sold.quote)
  {
    var rec, t1 := SettledRecord(t, id), Harvested(t);
    CompoundWorksIff(t, id, m);
    OfferGrows(t.recs[id].pendingBurn, PlanOf(t1, rec, m).toBurn, m.venue, t.terms.maxBurnImpactBps);
    SaleFits(t, rec.lnrgAccrued, m);
    RecordReserved(t, id);
  }

  lemma OfferGrows(a: nat, b: nat, venue: Venue, termBps: nat)
    requires a <= b
    ensures Offer(a, venue, termBps) <= Offer(b, venue, termBps)
  {
  }

  lemma SaleFits(t: Treasury, accrued: nat, m: Market)
    ensures SaleOf(t, accrued, m).quote <= m.broker.depth
  {
    var want := Min(accrued, SatSub(t.lnrg, t.config.lnrgMinimum));
    if Sellable(m.broker, want).Some? {
      SizedIsPayable(m.broker, want, 3);
    }
  }
}
