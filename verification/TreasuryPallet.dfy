/** The launch treasury as it runs: a record is read into a copy, changed field by field, and written back, with fees
    noted in storage underneath. */
module TreasuryPallet {
  import opened Arith
  import opened Results
  import opened Staking
  import opened StakingPallet
  import opened TreasurySpec
  import Broker
  import CurveTrading

  class LaunchTreasury {
    const config: Config
    const staking: StakingLedger
    var recs: map<nat, Record>
    var totalShares: nat
    var perShare: nat
    var accounted: nat
    var terms: TreasurySpec.Terms
    var targets: seq<nat>
    var stale: bool
    var funded: bool
    var queue: seq<Entry>
    var vtrs: nat
    var lnrg: nat
    var now: nat

    constructor (config: Config, staking: StakingLedger, terms: TreasurySpec.Terms, vtrs: nat, lnrg: nat)
      requires staking.rules == config.rules
      ensures this.staking == staking && this.config == config && Valid()
      ensures recs == map[] && totalShares == 0 && perShare == 0 && accounted == 0 && this.terms == terms
      ensures targets == [] && !stale && !funded && queue == [] && this.vtrs == vtrs && this.lnrg == lnrg && now == 0
    {
      this.config := config;
      this.staking := staking;
      recs, totalShares, perShare, accounted := map[], 0, 0, 0;
      this.terms := terms;
      targets, stale, funded, queue := [], false, false, [];
      this.vtrs, this.lnrg, now := vtrs, lnrg, 0;
    }

    /** The ledger the treasury stakes in goes by the treasury's own constants. */
    predicate Valid() {
      staking.rules == config.rules
    }

    /** Everything the calls read and write. */
    function View(): Treasury
      reads this, staking
    {
      Treasury(config, recs, totalShares, perShare, accounted, terms, targets, stale, funded, queue, vtrs, lnrg,
               staking.stash, staking.era, now, staking.cooperable, staking.reputationOk)
    }

    /** Drops a storage layer. */
    method Restore(saved: Treasury)
      requires saved.config == config && saved.era == staking.era && saved.cooperable == staking.cooperable
      requires saved.reputationOk == staking.reputationOk
      modifies this, staking`stash
      ensures View() == saved
    {
      RestoreLaunches(saved);
      terms, targets, stale, funded := saved.terms, saved.targets, saved.stale, saved.funded;
      vtrs, lnrg, now := saved.vtrs, saved.lnrg, saved.now;
      staking.stash := saved.stake;
    }

    method RestoreLaunches(saved: Treasury)
      modifies this`recs, this`totalShares, this`perShare, this`accounted, this`queue
      ensures recs == saved.recs && totalShares == saved.totalShares && queue == saved.queue
      ensures perShare == saved.perShare && accounted == saved.accounted
    {
      recs, totalShares, perShare, accounted := saved.recs, saved.totalShares, saved.perShare, saved.accounted;
      queue := saved.queue;
    }

    // ---- accumulator ----------------------------------------------------------------

    /** Attributes what arrived since the last harvest; answers how much. */
    method DoHarvest() returns (r: Result<nat, Error>)
      modifies this`perShare, this`accounted
      ensures match Harvest(old(View()))
              case Ok(t) => r == Ok(Unattributed(old(View()))) && View() == t
              case Err(e) => r == Err(e) && View() == old(View())
    {
      var delta := SatSub(lnrg, accounted);
      if delta == 0 || totalShares == 0 {
        return Ok(0);
      }
      var inc := delta * SCALE / totalShares;
      if inc > U128_MAX {
        return Err(ArithmeticOverflow);
      }
      perShare := SatAdd(perShare, inc);
      accounted := lnrg;
      return Ok(delta);
    }

    /** Realises a copy's claim and re-checkpoints it. */
    method SettleCopy(t0: Record) returns (r: Result<Record, Error>)
      ensures r == Settle(perShare, t0)
    {
      var gross := OwedGross(perShare, t0.shares);
      if gross.Err? {
        return Err(gross.error);
      }
      var t, owed := t0, SatSub(gross.value, t0.lnrgDebt);
      t := t.(lnrgAccrued := SatAdd(t.lnrgAccrued, owed));
      t := t.(lnrgDebt := gross.value);
      return Ok(t);
    }

    // ---- retarget and stake ---------------------------------------------------------------

    method FilterTargets() returns (survivors: seq<nat>)
      ensures survivors == Survivors(targets, staking.cooperable)
    {
      survivors := [];
      for i := 0 to |targets|
        invariant survivors == Survivors(targets[..i], staking.cooperable)
      {
        assert targets[..i + 1][..i] == targets[..i];
        if targets[i] in staking.cooperable {
          survivors := survivors + [targets[i]];
        }
      }
      assert targets[..|targets|] == targets;
    }

    /** An equal part of the active stake for each survivor, the first with the remainder. */
    method Split(active: nat, survivors: seq<nat>) returns (parts: Pairs)
      requires survivors != []
      ensures parts == EqualParts(active, survivors)
    {
      var each := active / |survivors|;
      var firstExtra := active - each * |survivors|;
      parts := [];
      for i := 0 to |survivors|
        invariant |parts| == i
        invariant forall k :: 0 <= k < i ==> parts[k] == EqualParts(active, survivors)[k]
      {
        parts := parts + [(survivors[i], if i == 0 then each + firstExtra else each)];
      }
    }

    method DoRetarget() returns (r: Result<(), Error>)
      requires Valid()
      modifies this`stale, staking`stash
      ensures match Retarget(old(View()))
              case Ok(t) => r == Ok(()) && View() == t
              case Err(e) => r == Err(e) && View() == old(View())
    {
      var active := ActiveOf(staking.stash);
      if active < config.rules.minCoopBond {
        return Err(NothingToDo);
      }
      var survivors := FilterTargets();
      if survivors == [] {
        return Err(NoTargets);
      }
      var parts := Split(active, survivors);
      var done := staking.Cooperate(parts);
      if done.Err? {
        return Err(StakingFailed(done.error));
      }
      stale := false;
      return Ok(());
    }

    /** A failure is recorded, not returned: the bond stands. */
    method RetargetAfterBondChange()
      requires Valid()
      modifies this`stale, staking`stash
      ensures View() == Recooperate(old(View()))
    {
      var done := DoRetarget();
      if done.Err? {
        stale := true;
      }
    }

    method BondOrExtra(value: nat) returns (r: Result<(), Error>)
      requires Valid()
      modifies staking`stash
      ensures match BondMore(old(View()), value)
              case Ok(l) => r == Ok(()) && staking.stash == Some(l)
              case Err(e) => r == Err(e) && staking.stash == old(staking.stash)
    {
      var done;
      if staking.stash.Some? {
        done := staking.BondExtra(value, vtrs);
      } else {
        done := staking.Bond(value, vtrs);
      }
      return if done.Err? then Err(StakingFailed(done.error)) else Ok(());
    }

    /** Bonds the settled copy's pending, mints its shares and writes it back. */
    method BondCopy(launch: nat, t0: Record) returns (r: Result<(), Error>)
      requires Valid()
      modifies this, staking`stash
      ensures match BondPending(old(View()), launch, t0)
              case Ok(t) => r == Ok(()) && View() == t
              case Err(e) => r == Err(e)
    {
      var activeBefore := ActiveOf(staking.stash);
      r := BondOrExtra(t0.pending);
      if r.Err? {
        return;
      }
      var added := SatSub(ActiveOf(staking.stash), activeBefore);
      if added == 0 {
        return Err(NothingToDo);
      }
      var shares := SharesFor(added, totalShares, activeBefore);
      if shares.Err? {
        return Err(shares.error);
      }
      r := WriteStake(launch, t0, added, shares.value);
      if r.Ok? {
        RetargetAfterBondChange();
      }
    }

    method WriteStake(launch: nat, t0: Record, added: nat, shares: nat) returns (r: Result<(), Error>)
      modifies this`recs, this`totalShares
      ensures match Minted(perShare, t0, SatSub(t0.pending, added), shares)
              case Ok(minted) =>
                r == Ok(()) && recs == old(recs)[launch := minted] && totalShares == SatAdd(old(totalShares), shares)
              case Err(e) => r == Err(e)
    {
      var t := t0;
      t := t.(pending := SatSub(t.pending, added));
      t := t.(shares := SatAdd(t.shares, shares));
      totalShares := SatAdd(totalShares, shares);
      var debt := OwedGross(perShare, t.shares);
      if debt.Err? {
        return Err(debt.error);
      }
      t := t.(lnrgDebt := debt.value);
      recs := recs[launch := t];
      return Ok(());
    }

    method DoStake(launch: nat) returns (r: Result<(), Error>)
      requires Valid()
      modifies this, staking`stash
      ensures match StakePending(old(View()), launch)
              case Ok(t) => r == Ok(()) && View() == t
              case Err(e) => r == Err(e)
    {
      if launch !in recs {
        return Err(NoTreasury);
      }
      var t := recs[launch];
      if t.status != Active {
        return Err(NotActive);
      }
      if t.pending < terms.minStake {
        return Err(BelowMinStake);
      }
      if totalShares != 0 && ActiveOf(staking.stash) == 0 {
        return Err(VaultInsolvent);
      }
      var harvested := DoHarvest();
      if harvested.Err? {
        return Err(harvested.error);
      }
      var settled := SettleCopy(t);
      if settled.Err? {
        return Err(settled.error);
      }
      r := BondCopy(launch, settled.value);
    }

    // ---- fees -----------------------------------------------------------------------------

    /** Notes a fee that reached the vault; the first one ever withholds the existential deposit. */
    method NoteFee(launch: nat, received: nat)
      modifies this`recs, this`funded
      ensures View() == TreasurySpec.NoteFee(old(View()), launch, received)
    {
      var amount := received;
      if !funded {
        funded := true;
        amount := SatSub(amount, config.rules.ed);
      }
      if launch !in recs {
        recs := recs[launch := Record(0, 0, 0, 0, 0, now, terms.dormancyBlocks, Active)];
      }
      var t := recs[launch];
      if t.status == Active {
        t := t.(pending := SatAdd(t.pending, amount));
      }
      recs := recs[launch := t];
    }

    /** A trade's fee, sent if the launch takes it and the deposit can land. */
    method ReceiveFee(launch: nat, amount: nat) returns (r: Result<(), Error>)
      modifies this
      ensures match Fee(old(View()), launch, amount)
              case Ok(t) => r == Ok(()) && View() == t
              case Err(e) => r == Err(e) && View() == old(View())
    {
      if amount == 0 || (launch in recs && recs[launch].status != Active) {
        return Err(NotActive);
      }
      if vtrs + amount < config.rules.ed || vtrs + amount > U128_MAX {
        return Err(PaymentFailed);
      }
      vtrs := vtrs + amount;
      NoteFee(launch, amount);
      return Ok(());
    }

    // ---- compound ---------------------------------------------------------------------------

    method SpendVtrs(amount: nat) returns (r: Result<(), Error>)
      modifies this`vtrs
      ensures match Spend(old(View()), amount)
              case Ok(t) => r == Ok(()) && View() == t
              case Err(e) => r == Err(e) && View() == old(View())
    {
      if vtrs < amount + Locked(View()) {
        return Err(PaymentFailed);
      }
      vtrs := vtrs - amount;
      return Ok(());
    }

    /** Pays a bounty that would land; answers what was paid. */
    method PayBounty(amount: nat, lands: bool) returns (r: Result<nat, Error>)
      modifies this`vtrs
      ensures match PayKeeper(old(View()), amount, lands)
              case Ok((t, paid)) => r == Ok(paid) && View() == t
              case Err(e) => r == Err(e) && View() == old(View())
    {
      if amount == 0 || !lands {
        return Ok(0);
      }
      var paid := SpendVtrs(amount);
      return if paid.Err? then Err(paid.error) else Ok(amount);
    }

    /** Books `x` sold for `out` into the copy. */
    method BookSold(t0: Record, done0: bool, x: nat, out: nat, lands: bool) returns (r: Result<(Record, bool), Error>)
      modifies this`vtrs, this`lnrg, this`accounted
      ensures match BookSale(Work(old(View()), t0, done0), x, out, lands)
              case Ok(w) => r == Ok((w.rec, w.done)) && View() == w.t
              case Err(e) => r == Err(e)
    {
      vtrs := vtrs + out;
      lnrg := SatSub(lnrg, x);
      var t := t0;
      t := t.(lnrgAccrued := SatSub(t.lnrgAccrued, x));
      accounted := SatSub(accounted, x);
      var bounty := MulDiv(out, terms.keeperBountyBps, BPS);
      if bounty.Err? {
        return Err(bounty.error);
      }
      var paid := PayBounty(bounty.value, lands);
      if paid.Err? {
        return Err(paid.error);
      }
      t := t.(pendingBurn := SatAdd(t.pendingBurn, SatSub(out, paid.value)));
      return Ok((t, true));
    }

    /** Sells what the broker can pay for of the copy's accrued rewards. */
    method Sell(t0: Record, broker: Broker.Broker, lands: bool) returns (r: Result<(Record, bool), Error>)
      modifies this`vtrs, this`lnrg, this`accounted
      ensures match SellAccrued(Work(old(View()), t0, false), broker, lands)
              case Ok(w) => r == Ok((w.rec, w.done)) && View() == w.t
              case Err(e) => r == Err(e)
    {
      var canPartWith := SatSub(lnrg, config.lnrgMinimum);
      var sale := Broker.SizeSale(broker, t0.lnrgAccrued, canPartWith);
      if sale.None? {
        return Ok((t0, false));
      }
      var (x, q) := (sale.value.amount, sale.value.quote);
      var sold := Broker.Sell(broker, canPartWith, x, SatSub(q, q / 1_000));
      if sold.Err? {
        return Err(ExchangeFailed(sold.error));
      }
      if vtrs + sold.value > U128_MAX {
        return Err(PaymentFailed);
      }
      r := BookSold(t0, false, x, sold.value, lands);
    }

    /** The venue's buy: it moves the vault's balance and notes this launch's own fee underneath. */
    method VenueBuy(launch: nat, spent: nat, arrived: nat)
      requires spent <= vtrs
      modifies this`vtrs, this`recs, this`funded
      ensures View() == AfterVenue(old(View()), launch, spent, arrived)
    {
      vtrs := vtrs - spent;
      vtrs := vtrs + arrived;
      if arrived > 0 {
        NoteFee(launch, arrived);
      }
    }

    /** Buys one impact-capped slice; answers whether anything was bought. */
    method BuySlice(launch: nat, pendingBurn: nat, venue: Venue, a: BuyAnswer) returns (r: Result<bool, Error>)
      modifies this`vtrs, this`recs, this`funded
      ensures match BurnSlice(old(View()), launch, pendingBurn, venue, a)
              case Ok(None) => r == Ok(false) && View() == old(View())
              case Ok(Some(t)) => r == Ok(true) && View() == t
              case Err(e) => r == Err(e)
    {
      var y := if venue.NoVenue? then 0
               else Min(pendingBurn, CurveTrading.SliceCap(venue.reserve, terms.maxBurnImpactBps, venue.feeBps));
      if y == 0 || a.CannotQuote? {
        return Ok(false);
      }
      if a.Failed? || !Deliverable(View(), launch, y, a) {
        return Err(VenueFailed);
      }
      VenueBuy(launch, a.spent, a.arrived);
      return Ok(true);
    }

    /** Books a slice into the copy: what arrived is re-read from storage, what was spent from the balance. */
    method BookBurn(launch: nat, t0: Record, before: nat, started: Treasury, lands: bool)
      returns (r: Result<Record, Error>)
      requires before == started.vtrs && started.now == now
      modifies this`vtrs
      ensures match BookSlice(Work(started, t0, false), launch, old(View()), lands)
              case Ok(w) => r == Ok(w.rec) && View() == w.t
              case Err(e) => r == Err(e)
    {
      var t, pendingBefore := t0, t0.pending;
      if launch in recs {
        t := t.(pending := recs[launch].pending);
      }
      var arrived := SatSub(t.pending, pendingBefore);
      var spent := SatSub(SatAdd(before, arrived), vtrs);
      t := t.(pendingBurn := SatSub(t.pendingBurn, spent));
      t := t.(lastBurn := now);
      var bounty := MulDiv(spent, terms.keeperBountyBps, BPS);
      if bounty.Err? {
        return Err(bounty.error);
      }
      var paid := PayBounty(bounty.value, lands && bounty.value <= t.pendingBurn);
      if paid.Err? {
        return Err(paid.error);
      }
      t := t.(pendingBurn := SatSub(t.pendingBurn, paid.value));
      return Ok(t);
    }

    /** Burns one slice of the copy if one is due. */
    method Burn(launch: nat, t0: Record, done0: bool, venue: Venue, a: BuyAnswer, lands: bool)
      returns (r: Result<(Record, bool), Error>)
      modifies this`vtrs, this`recs, this`funded
      ensures match BurnDue(Work(old(View()), t0, done0), launch, venue, a, lands)
              case Ok(w) => r == Ok((w.rec, w.done)) && View() == w.t
              case Err(e) => r == Err(e)
    {
      if t0.pendingBurn == 0 || SatSub(now, t0.lastBurn) < terms.minBurnInterval {
        return Ok((t0, done0));
      }
      var before, started := vtrs, View();
      var bought := BuySlice(launch, t0.pendingBurn, venue, a);
      if bought.Err? {
        return Err(bought.error);
      }
      if !bought.value {
        return Ok((t0, done0));
      }
      var booked := BookBurn(launch, t0, before, started, lands);
      return if booked.Err? then Err(booked.error) else Ok((booked.value, true));
    }

    /** Sweeps a retired copy's dust, or writes it back if anything was done. */
    method Finish(launch: nat, t0: Record, done: bool, protocolTakes: bool) returns (r: Result<(), Error>)
      modifies this`vtrs, this`recs
      ensures match Close(Work(old(View()), t0, done), launch, protocolTakes)
              case Ok(t) => r == Ok(()) && View() == t
              case Err(e) => r == Err(e)
    {
      var t := t0;
      if t.status == Retired && t.shares == 0 && t.lnrgAccrued == 0 {
        if t.pendingBurn != 0 && t.pendingBurn < config.rules.ed && t.pending == 0 {
          if !protocolTakes {
            return Err(PaymentFailed);
          }
          r := SpendVtrs(t.pendingBurn);
          if r.Err? {
            return;
          }
          t := t.(pendingBurn := 0);
          recs := recs[launch := t];
          return Ok(());
        }
      }
      if !done {
        return Err(NothingToDo);
      }
      recs := recs[launch := t];
      return Ok(());
    }

    method DoCompound(launch: nat, m: Market) returns (r: Result<(), Error>)
      modifies this
      ensures match TreasurySpec.Compound(old(View()), launch, m)
              case Ok(t) => r == Ok(()) && View() == t
              case Err(e) => r == Err(e)
    {
      if launch !in recs {
        return Err(NoTreasury);
      }
      var harvested := DoHarvest();
      if harvested.Err? {
        return Err(harvested.error);
      }
      var settled := SettleCopy(recs[launch]);
      if settled.Err? {
        return Err(settled.error);
      }
      r := CompoundCopied(launch, settled.value, m);
    }

    /** The sale, the slice and the close over a settled copy. */
    method CompoundCopied(launch: nat, t0: Record, m: Market) returns (r: Result<(), Error>)
      modifies this
      ensures match CompoundCopy(old(View()), launch, t0, m)
              case Ok(t) => r == Ok(()) && View() == t
              case Err(e) => r == Err(e)
    {
      var sold := Sell(t0, m.broker, m.keeperTakesSale);
      if sold.Err? {
        return Err(sold.error);
      }
      var burned := Burn(launch, sold.value.0, sold.value.1, m.venue, m.answer, m.keeperTakesSlice);
      if burned.Err? {
        return Err(burned.error);
      }
      r := Finish(launch, burned.value.0, burned.value.1, m.protocolTakes);
    }

    // ---- retire and finalize --------------------------------------------------------------------

    /** Chills if too little would be left to cooperate with, then unbonds. */
    method ChillAndUnbond(v: nat) returns (r: Result<(), Error>)
      requires Valid()
      modifies staking`stash
      ensures match Unstake(old(View()), v)
              case Ok(l) => r == Ok(()) && staking.stash == Some(l)
              case Err(e) => r == Err(e)
    {
      var remaining := SatSub(ActiveOf(staking.stash), v);
      if remaining < config.rules.minCoopBond && IsCooperating(staking.stash) {
        // a cooperating ledger exists, so this cannot be refused
        var chilled := staking.Chill();
        assert chilled.Ok?;
      }
      var unbonded := staking.Unbond(v);
      return if unbonded.Err? then Err(StakingFailed(unbonded.error)) else Ok(());
    }

    /** Unbonds a copy's part of the stake and puts it at the end of the queue. */
    method Queue(launch: nat, t0: Record, v: nat) returns (r: Result<(), Error>)
      requires Valid()
      modifies this`recs, this`queue, staking`stash
      ensures match Enqueue(old(View()), launch, t0, v)
              case Ok(t) => r == Ok(()) && View() == t
              case Err(e) => r == Err(e)
    {
      if |queue| >= config.rules.maxChunks {
        return Err(QueueFull);
      }
      r := ChillAndUnbond(v);
      if r.Err? {
        return;
      }
      var chunkEra := staking.era + config.rules.bondingDuration;
      queue := queue + [Entry(launch, chunkEra, v)];
      recs := recs[launch := Redeemed(t0, Retiring(chunkEra))];
    }

    /** Redeems a settled copy's shares. */
    method Redeem(launch: nat, t0: Record) returns (r: Result<(), Error>)
      requires Valid()
      modifies this, staking`stash
      ensures match RedeemShares(old(View()), launch, t0)
              case Ok(t) => r == Ok(()) && View() == t
              case Err(e) => r == Err(e)
    {
      var total := totalShares;
      var v := ValueOf(t0.shares, total, ActiveOf(staking.stash));
      if v.Err? {
        return Err(v.error);
      }
      if v.value == 0 {
        recs := recs[launch := Redeemed(t0, Retired)];
      } else {
        r := Queue(launch, t0, v.value);
        if r.Err? {
          return;
        }
      }
      totalShares := SatSub(total, t0.shares);
      return Ok(());
    }

    method DoRetire(launch: nat, lastTrade: Option<nat>) returns (r: Result<(), Error>)
      requires Valid()
      modifies this, staking`stash
      ensures match TreasurySpec.Retire(old(View()), launch, lastTrade)
              case Ok(t) => r == Ok(()) && View() == t
              case Err(e) => r == Err(e)
    {
      if launch !in recs {
        return Err(NoTreasury);
      }
      var t := recs[launch];
      if t.status != Active {
        return Err(NotActive);
      }
      if lastTrade.None? {
        return Err(NoTreasury);
      }
      if SatSub(now, lastTrade.value) < t.dormancy {
        return Err(NotDormant);
      }
      var harvested := DoHarvest();
      if harvested.Err? {
        return Err(harvested.error);
      }
      var settled := SettleCopy(t);
      if settled.Err? {
        return Err(settled.error);
      }
      r := Redeem(launch, settled.value);
      if r.Ok? && IsCooperating(staking.stash) {
        RetargetAfterBondChange();
      }
    }

    /** Parts the queue into matured and waiting, in one pass, and sums what the matured ones unbonded. */
    method PartQueue() returns (matured: seq<Entry>, waiting: seq<Entry>, expected: nat)
      ensures matured == DueEntries(queue, staking.era, true) && waiting == DueEntries(queue, staking.era, false)
      ensures expected == Expected(matured)
    {
      matured, waiting, expected := [], [], 0;
      for i := 0 to |queue|
        invariant matured == DueEntries(queue[..i], staking.era, true)
        invariant waiting == DueEntries(queue[..i], staking.era, false)
        invariant expected == Expected(matured)
      {
        assert queue[..i + 1][..i] == queue[..i];
        if queue[i].era <= staking.era {
          assert (matured + [queue[i]])[..|matured|] == matured;
          matured := matured + [queue[i]];
          expected := SatAdd(expected, queue[i].amount);
        } else {
          waiting := waiting + [queue[i]];
        }
      }
      assert queue[..|queue|] == queue;
    }

    /** Credits every matured entry in turn, the last with the rest. */
    method CreditAll(matured: seq<Entry>, withdrawn: nat, expected: nat) returns (r: Result<(), Error>)
      modifies this`recs
      ensures match CreditFrom(old(recs), matured, 0, withdrawn, expected, 0)
              case Ok(m) => r == Ok(()) && recs == m
              case Err(e) => r == Err(e)
    {
      var credited, i := 0, 0;
      while i < |matured|
        invariant i <= |matured|
        invariant CreditFrom(recs, matured, i, withdrawn, expected, credited)
                  == CreditFrom(old(recs), matured, 0, withdrawn, expected, 0)
      {
        var credit;
        if i + 1 == |matured| {
          credit := SatSub(withdrawn, credited);
        } else {
          var part := MulDiv(matured[i].amount, withdrawn, expected);
          if part.Err? {
            return Err(part.error);
          }
          credit := part.value;
        }
        credited := SatAdd(credited, credit);
        if matured[i].id in recs {
          var t := recs[matured[i].id];
          t := t.(pendingBurn := SatAdd(t.pendingBurn, credit));
          t := t.(status := Retired);
          recs := recs[matured[i].id := t];
        }
        i := i + 1;
      }
      return Ok(());
    }

    method DoFinalize(launch: nat) returns (r: Result<(), Error>)
      modifies this`recs, this`queue, staking`stash
      ensures match TreasurySpec.Finalize(old(View()), launch)
              case Ok(t) => r == Ok(()) && View() == t
              case Err(e) => r == Err(e)
    {
      if launch !in recs {
        return Err(NoTreasury);
      }
      if !recs[launch].status.Retiring? {
        return Err(NotRetiring);
      }
      if staking.era < recs[launch].status.chunkEra {
        return Err(NotMatured);
      }
      var withdrawn := staking.WithdrawUnbonded();
      if withdrawn.Err? {
        return Err(StakingFailed(withdrawn.error));
      }
      var matured, waiting, expected := PartQueue();
      if expected == 0 {
        return Err(NothingToDo);
      }
      r := CreditAll(matured, withdrawn.value, expected);
      if r.Ok? {
        queue := waiting;
      }
    }

    // ---- extrinsics: a refused call leaves no trace ---------------------------------------------

    method Stake(launch: nat) returns (r: Result<(), Error>)
      requires Valid()
      modifies this, staking`stash
      ensures match StakePending(old(View()), launch)
              case Ok(t) => r == Ok(()) && View() == t
              case Err(e) => r == Err(e) && View() == old(View())
    {
      var layer := View();
      r := DoStake(launch);
      if r.Err? {
        Restore(layer);
      }
    }

    method HarvestNow() returns (r: Result<(), Error>)
      modifies this`perShare, this`accounted
      ensures match HarvestCall(old(View()))
              case Ok(t) => r == Ok(()) && View() == t
              case Err(e) => r == Err(e) && View() == old(View())
    {
      var harvested := DoHarvest();
      if harvested.Err? {
        return Err(harvested.error);
      }
      return if harvested.value > 0 then Ok(()) else Err(NothingToDo);
    }

    method Compound(launch: nat, m: Market) returns (r: Result<(), Error>)
      modifies this, staking`stash
      ensures match TreasurySpec.Compound(old(View()), launch, m)
              case Ok(t) => r == Ok(()) && View() == t
              case Err(e) => r == Err(e) && View() == old(View())
    {
      var layer := View();
      r := DoCompound(launch, m);
      if r.Err? {
        Restore(layer);
      }
    }

    method Retire(launch: nat, lastTrade: Option<nat>) returns (r: Result<(), Error>)
      requires Valid()
      modifies this, staking`stash
      ensures match TreasurySpec.Retire(old(View()), launch, lastTrade)
              case Ok(t) => r == Ok(()) && View() == t
              case Err(e) => r == Err(e) && View() == old(View())
    {
      var layer := View();
      r := DoRetire(launch, lastTrade);
      if r.Err? {
        Restore(layer);
      }
    }

    method FinalizeRetirement(launch: nat) returns (r: Result<(), Error>)
      modifies this, staking`stash
      ensures match TreasurySpec.Finalize(old(View()), launch)
              case Ok(t) => r == Ok(()) && View() == t
              case Err(e) => r == Err(e) && View() == old(View())
    {
      var layer := View();
      r := DoFinalize(launch);
      if r.Err? {
        Restore(layer);
      }
    }

    method SetTargets(newTargets: seq<nat>) returns (r: Result<(), Error>)
      requires Valid()
      modifies this, staking`stash
      ensures match TreasurySpec.SetTargets(old(View()), newTargets)
              case Ok(t) => r == Ok(()) && View() == t
              case Err(e) => r == Err(e) && View() == old(View())
    {
      if |newTargets| > config.maxTargets {
        return Err(TermsOutOfBounds);
      }
      targets := newTargets;
      if staking.stash.Some? {
        RetargetAfterBondChange();
      }
      return Ok(());
    }

    /** A validator's slash reaches the vault: what leaves the ledger leaves the balance. */
    method TakeSlash(bps: nat) returns (r: Result<(), Error>)
      modifies this`vtrs, staking`stash
      ensures match SlashVault(old(View()), bps)
              case Ok(t) => r == Ok(()) && View() == t
              case Err(e) => r == Err(e) && View() == old(View())
    {
      if staking.stash.None? || bps > BPS {
        return Err(NothingToDo);
      }
      var cut := staking.Slash(bps);
      vtrs := SatSub(vtrs, cut);
      return Ok(());
    }
  }
}
