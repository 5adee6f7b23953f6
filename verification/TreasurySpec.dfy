/** The launch treasury's calls, and the chain's own steps, as functions from one state to the next or to an error. */
module TreasurySpec {
  import opened Arith
  import opened Results
  import opened Staking
  import opened Broker
  import CurveTrading

  /** Fixed-point scale of the rewards-per-share accumulator. */
  const SCALE: nat := 1_000_000_000_000_000_000

  datatype Status = Active | Retiring(chunkEra: nat) | Retired

  datatype Record = Record(
    pending: nat, shares: nat, lnrgDebt: nat, lnrgAccrued: nat, pendingBurn: nat, lastBurn: nat, dormancy: nat,
    status: Status)

  datatype Terms = Terms(
    dormancyBlocks: nat, minStake: nat, maxBurnImpactBps: nat, minBurnInterval: nat, keeperBountyBps: nat)

  /** A retiring launch, the era its chunk matures in, and what it unbonded. */
  datatype Entry = Entry(id: nat, era: nat, amount: nat)

  datatype Config = Config(rules: Rules, maxTargets: nat, lnrgMinimum: nat)

  datatype Treasury = Treasury(
    config: Config, recs: map<nat, Record>, totalShares: nat, perShare: nat, accounted: nat, terms: Terms,
    targets: seq<nat>, stale: bool, funded: bool, queue: seq<Entry>, vtrs: nat, lnrg: nat, stake: Option<Stake>,
    era: nat, now: nat, cooperable: set<nat>, reputationOk: bool)

  datatype Error =
    | NoTreasury | BelowMinStake | NotDormant | NotActive | NotRetiring | NotMatured | TooSoon | NoTargets
    | VaultInsolvent | QueueFull | NothingToDo | TermsOutOfBounds | ArithmeticOverflow | VenueFailed | PaymentFailed
    | StakingFailed(reason: StakeError) | ExchangeFailed(refusal: SellError)

  function FromStaking<T>(r: Result<T, StakeError>): Result<T, Error> {
    match r
    case Ok(v) => Ok(v)
    case Err(e) => Err(StakingFailed(e))
  }

  function MulDiv(a: nat, b: nat, c: nat): Result<nat, Error> {
    if c == 0 || a * b / c > U128_MAX then Err(ArithmeticOverflow) else Ok(a * b / c)
  }

  function Put(t: Treasury, id: nat, rec: Record): Treasury {
    t.(recs := t.recs[id := rec])
  }

  // ---- accumulator ------------------------------------------------------------------

  /** What a harvest would attribute now. */
  function Unattributed(t: Treasury): nat {
    if t.totalShares == 0 then 0 else SatSub(t.lnrg, t.accounted)
  }

  function Harvest(t: Treasury): Result<Treasury, Error> {
    if Unattributed(t) == 0 then Ok(t)
    else
      var inc := Unattributed(t) * SCALE / t.totalShares;
      if inc > U128_MAX then Err(ArithmeticOverflow)
      else Ok(t.(perShare := SatAdd(t.perShare, inc), accounted := t.lnrg))
  }

  function OwedGross(perShare: nat, shares: nat): Result<nat, Error> {
    MulDiv(shares, perShare, SCALE)
  }

  /** The claim moved into `lnrgAccrued`, and the checkpoint with it. */
  function Settle(perShare: nat, rec: Record): Result<Record, Error> {
    var gross :- OwedGross(perShare, rec.shares);
    Ok(rec.(lnrgAccrued := SatAdd(rec.lnrgAccrued, SatSub(gross, rec.lnrgDebt)), lnrgDebt := gross))
  }

  // ---- stake and retarget -------------------------------------------------------------

  function Survivors(targets: seq<nat>, cooperable: set<nat>): seq<nat> {
    if targets == [] then []
    else
      var rest := Survivors(targets[..|targets| - 1], cooperable);
      if targets[|targets| - 1] in cooperable then rest + [targets[|targets| - 1]] else rest
  }

  function Retarget(t: Treasury): Result<Treasury, Error> {
    var survivors := Survivors(t.targets, t.cooperable);
    if ActiveOf(t.stake) < t.config.rules.minCoopBond then Err(NothingToDo)
    else if survivors == [] then Err(NoTargets)
    else
      var parts := EqualParts(ActiveOf(t.stake), survivors);
      var l :- FromStaking(Cooperate(t.config.rules, t.stake, parts, t.cooperable, t.reputationOk));
      Ok(t.(stake := Some(l), stale := false))
  }

  /** The re-cooperation after a bond change: a failure is recorded, not returned. */
  function Recooperate(t: Treasury): Treasury {
    match Retarget(t)
    case Ok(t') => t'
    case Err(_) => t.(stale := true)
  }

  /** The ledger with up to `value` more bonded. */
  function BondMore(t: Treasury, value: nat): Result<Stake, Error> {
    FromStaking(if t.stake.Some? then BondExtra(t.config.rules, t.stake, value, t.vtrs)
                else Bond(t.config.rules, t.stake, value, t.vtrs))
  }

  function SharesFor(added: nat, totalShares: nat, activeBefore: nat): Result<nat, Error> {
    if totalShares == 0 then Ok(added) else MulDiv(added, totalShares, activeBefore)
  }

  /** The record with `shares` more, checkpointed at what they would already have earned. */
  function Minted(perShare: nat, rec: Record, pending: nat, shares: nat): Result<Record, Error> {
    var more := SatAdd(rec.shares, shares);
    var debt :- OwedGross(perShare, more);
    Ok(rec.(pending := pending, shares := more, lnrgDebt := debt))
  }

  function StakePending(t: Treasury, id: nat): Result<Treasury, Error> {
    if id !in t.recs then Err(NoTreasury)
    else
      var rec, before := t.recs[id], ActiveOf(t.stake);
      if rec.status != Active then Err(NotActive)
      else if rec.pending < t.terms.minStake then Err(BelowMinStake)
      else if t.totalShares != 0 && before == 0 then Err(VaultInsolvent)
      else
        var t1 :- Harvest(t);
        var settled :- Settle(t1.perShare, rec);
        BondPending(t1, id, settled)
  }

  /** Bonds a settled record's pending and mints its shares. */
  function BondPending(t: Treasury, id: nat, rec: Record): Result<Treasury, Error> {
    var before := ActiveOf(t.stake);
    var l :- BondMore(t, rec.pending);
    var added := SatSub(l.active, before);
    if added == 0 then Err(NothingToDo)
    else
      var shares :- SharesFor(added, t.totalShares, before);
      var minted :- Minted(t.perShare, rec, SatSub(rec.pending, added), shares);
      Ok(Recooperate(Put(t, id, minted).(totalShares := SatAdd(t.totalShares, shares), stake := Some(l))))
  }

  // ---- fees -----------------------------------------------------------------------------

  predicate TakesFees(t: Treasury, id: nat) {
    id in t.recs ==> t.recs[id].status == Active
  }

  /** A fee that reached the vault: the first one ever withholds the existential deposit. */
  function NoteFee(t: Treasury, id: nat, amount: nat): Treasury {
    var noted := if t.funded then amount else SatSub(amount, t.config.rules.ed);
    var rec := if id in t.recs then t.recs[id]
               else Record(0, 0, 0, 0, 0, t.now, t.terms.dormancyBlocks, Active);
    var rec' := if rec.status == Active then rec.(pending := SatAdd(rec.pending, noted)) else rec;
    Put(t.(funded := true), id, rec')
  }

  /** A trade's fee: sent to the vault if the launch still takes fees and the deposit can land, then noted. */
  function Fee(t: Treasury, id: nat, amount: nat): Result<Treasury, Error> {
    if !TakesFees(t, id) || amount == 0 then Err(NotActive)
    else if t.vtrs + amount < t.config.rules.ed || t.vtrs + amount > U128_MAX then Err(PaymentFailed)
    else Ok(NoteFee(t.(vtrs := t.vtrs + amount), id, amount))
  }

  // ---- compound ---------------------------------------------------------------------------

  /** What the vault may not go below: its deposit, and what the staking lock covers. */
  function Locked(t: Treasury): nat {
    if HeldBy(t.stake) < t.config.rules.ed then t.config.rules.ed else HeldBy(t.stake)
  }

  function Spend(t: Treasury, amount: nat): Result<Treasury, Error> {
    if t.vtrs < amount + Locked(t) then Err(PaymentFailed) else Ok(t.(vtrs := t.vtrs - amount))
  }

  /** A payment that is made when it would land, and skipped otherwise. Answers what was paid. */
  function PayKeeper(t: Treasury, amount: nat, lands: bool): Result<(Treasury, nat), Error> {
    if amount == 0 || !lands then Ok((t, 0))
    else
      var t' :- Spend(t, amount);
      Ok((t', amount))
  }

  /** A local copy of a record beside the storage it was read from, and whether the call has done anything. */
  datatype Work = Work(t: Treasury, rec: Record, done: bool)

  function CanPartWith(t: Treasury): nat {
    SatSub(t.lnrg, t.config.lnrgMinimum)
  }

  /** Sells what of the record's accrued rewards the broker can pay for, and pays the caller its share. */
  function SellAccrued(w: Work, broker: Broker, lands: bool): Result<Work, Error> {
    var sale := Sellable(broker, Min(w.rec.lnrgAccrued, CanPartWith(w.t)));
    if sale.None? then Ok(w)
    else
      var (x, q) := (sale.value.amount, sale.value.quote);
      match Sell(broker, CanPartWith(w.t), x, SatSub(q, q / 1_000))
      case Err(e) => Err(ExchangeFailed(e))
      case Ok(out) =>
        if w.t.vtrs + out > U128_MAX then Err(PaymentFailed)
        else BookSale(w, x, out, lands)
  }

  /** `x` rewards left the vault for `out`. */
  function BookSale(w: Work, x: nat, out: nat, lands: bool): Result<Work, Error> {
    var t := w.t.(vtrs := w.t.vtrs + out, lnrg := SatSub(w.t.lnrg, x), accounted := SatSub(w.t.accounted, x));
    var bounty :- MulDiv(out, t.terms.keeperBountyBps, BPS);
    var (t', paid) :- PayKeeper(t, bounty, lands);
    Ok(Work(t', w.rec.(lnrgAccrued := SatSub(w.rec.lnrgAccrued, x),
                       pendingBurn := SatAdd(w.rec.pendingBurn, SatSub(out, paid))), true))
  }

  /** Where a slice would buy: nowhere, or a venue with its reserve and fee. */
  datatype Venue = NoVenue | Venue(reserve: nat, feeBps: nat)

  /** What a buy of at most the slice answers: no quote, a failure, or what it took and what of it came back as this
      launch's own fee. */
  datatype BuyAnswer = CannotQuote | Failed | Bought(spent: nat, arrived: nat)

  function SliceOf(pendingBurn: nat, venue: Venue, termBps: nat): nat {
    if venue.NoVenue? then 0 else Min(pendingBurn, CurveTrading.SliceCap(venue.reserve, termBps, venue.feeBps))
  }

  /** A venue takes something and no more than offered, returns no more than it took, and returns it only to a launch
      that still takes fees. */
  predicate Deliverable(t: Treasury, id: nat, y: nat, a: BuyAnswer) {
    a.Bought? ==>
      && 0 < a.spent <= y && a.arrived <= a.spent && a.spent + Locked(t) <= t.vtrs
      && (a.arrived > 0 ==> TakesFees(t, id))
  }

  /** The vault after a buy, with the fee noted underneath in storage. */
  function AfterVenue(t: Treasury, id: nat, spent: nat, arrived: nat): Treasury
    requires spent <= t.vtrs
  {
    var t1 := t.(vtrs := t.vtrs - spent + arrived);
    if arrived > 0 then NoteFee(t1, id, arrived) else t1
  }

  function BurnSlice(t: Treasury, id: nat, pendingBurn: nat, venue: Venue, a: BuyAnswer)
    : Result<Option<Treasury>, Error>
  {
    var y := SliceOf(pendingBurn, venue, t.terms.maxBurnImpactBps);
    if y == 0 || a.CannotQuote? then Ok(None)
    else if a.Failed? || !Deliverable(t, id, y, a) then Err(VenueFailed)
    else Ok(Some(AfterVenue(t, id, a.spent, a.arrived)))
  }

  /** Burns one slice if one is due. What was spent is read back from the balance, what arrived from storage. */
  function BurnDue(w: Work, id: nat, venue: Venue, a: BuyAnswer, lands: bool): Result<Work, Error> {
    if w.rec.pendingBurn == 0 || SatSub(w.t.now, w.rec.lastBurn) < w.t.terms.minBurnInterval then Ok(w)
    else
      var after :- BurnSlice(w.t, id, w.rec.pendingBurn, venue, a);
      if after.None? then Ok(w) else BookSlice(w, id, after.value, lands)
  }

  function BookSlice(w: Work, id: nat, after: Treasury, lands: bool): Result<Work, Error> {
    var pending := if id in after.recs then after.recs[id].pending else w.rec.pending;
    var arrived := SatSub(pending, w.rec.pending);
    var spent := SatSub(SatAdd(w.t.vtrs, arrived), after.vtrs);
    var left := SatSub(w.rec.pendingBurn, spent);
    var bounty :- MulDiv(spent, after.terms.keeperBountyBps, BPS);
    var (t', paid) :- PayKeeper(after, bounty, lands && bounty <= left);
    Ok(Work(t', w.rec.(pending := pending, pendingBurn := SatSub(left, paid), lastBurn := w.t.now), true))
  }

  /** What a compound call meets: the broker, who can take a payment, the venue and its answer. */
  datatype Market = Market(broker: Broker, keeperTakesSale: bool, keeperTakesSlice: bool, protocolTakes: bool,
                           venue: Venue, answer: BuyAnswer)

  predicate Sweepable(t: Treasury, rec: Record) {
    && rec.status == Retired && rec.shares == 0 && rec.lnrgAccrued == 0
    && 0 < rec.pendingBurn < t.config.rules.ed && rec.pending == 0
  }

  /** Sweeps a retired record's last dust, or writes the local copy back if anything was done. */
  function Close(w: Work, id: nat, protocolTakes: bool): Result<Treasury, Error> {
    if Sweepable(w.t, w.rec) then
      if !protocolTakes then Err(PaymentFailed)
      else
        var t :- Spend(w.t, w.rec.pendingBurn);
        Ok(Put(t, id, w.rec.(pendingBurn := 0)))
    else if !w.done then Err(NothingToDo)
    else Ok(Put(w.t, id, w.rec))
  }

  function Compound(t: Treasury, id: nat, m: Market): Result<Treasury, Error> {
    if id !in t.recs then Err(NoTreasury)
    else
      var t1 :- Harvest(t);
      var rec :- Settle(t1.perShare, t1.recs[id]);
      CompoundCopy(t1, id, rec, m)
  }

  /** The sale, the slice and the close over a settled copy. */
  function CompoundCopy(t: Treasury, id: nat, rec: Record, m: Market): Result<Treasury, Error> {
    var w1 :- SellAccrued(Work(t, rec, false), m.broker, m.keeperTakesSale);
    var w2 :- BurnDue(w1, id, m.venue, m.answer, m.keeperTakesSlice);
    Close(w2, id, m.protocolTakes)
  }

  // ---- retire and finalize ------------------------------------------------------------------

  function ValueOf(shares: nat, totalShares: nat, active: nat): Result<nat, Error> {
    if shares == 0 || totalShares == 0 then Ok(0) else MulDiv(shares, active, totalShares)
  }

  /** The vault with `v` unbonded for the launch: chilled first if too little would be left to cooperate with. */
  function Unstake(t: Treasury, v: nat): Result<Stake, Error> {
    var chilled :- if SatSub(ActiveOf(t.stake), v) < t.config.rules.minCoopBond && IsCooperating(t.stake)
                   then FromStaking(Chill(t.stake))
                   else if t.stake.None? then Err(StakingFailed(NotController)) else Ok(t.stake.value);
    FromStaking(Unbond(t.config.rules, Some(chilled), v, t.era))
  }

  /** The record with its shares redeemed and its unstaked fees set to burn. */
  function Redeemed(rec: Record, status: Status): Record {
    rec.(pending := 0, shares := 0, lnrgDebt := 0, pendingBurn := SatAdd(rec.pendingBurn, rec.pending),
    status := status)
  }

  function Retire(t: Treasury, id: nat, lastTrade: Option<nat>): Result<Treasury, Error> {
    if id !in t.recs then Err(NoTreasury)
    else
      var rec := t.recs[id];
      if rec.status != Active then Err(NotActive)
      else if lastTrade.None? then Err(NoTreasury)
      else if SatSub(t.now, lastTrade.value) < rec.dormancy then Err(NotDormant)
      else
        var t1 :- Harvest(t);
        var settled :- Settle(t1.perShare, rec);
        var t2 :- RedeemShares(t1, id, settled);
        Ok(if IsCooperating(t2.stake) then Recooperate(t2) else t2)
  }

  /** A settled launch gives its shares up for their part of the stake, which goes to the queue unless it is nothing. */
  function RedeemShares(t: Treasury, id: nat, rec: Record): Result<Treasury, Error> {
    var v :- ValueOf(rec.shares, t.totalShares, ActiveOf(t.stake));
    var t' :- if v == 0 then Ok(Put(t, id, Redeemed(rec, Retired))) else Enqueue(t, id, rec, v);
    Ok(t'.(totalShares := SatSub(t.totalShares, rec.shares)))
  }

  function Enqueue(t: Treasury, id: nat, rec: Record, v: nat): Result<Treasury, Error> {
    if |t.queue| >= t.config.rules.maxChunks then Err(QueueFull)
    else
      var l :- Unstake(t, v);
      var era := t.era + t.config.rules.bondingDuration;
      Ok(Put(t, id, Redeemed(rec, Retiring(era))).(stake := Some(l), queue := t.queue + [Entry(id, era, v)]))
  }

  /** The entries that have (`matured`) or have not reached `era`, in order. */
  function DueEntries(q: seq<Entry>, era: nat, matured: bool): seq<Entry> {
    if q == [] then []
    else
      var rest := DueEntries(q[..|q| - 1], era, matured);
      if (q[|q| - 1].era <= era) == matured then rest + [q[|q| - 1]] else rest
  }

  /** Saturating sum of what the entries unbonded. */
  function Expected(q: seq<Entry>): nat {
    if q == [] then 0 else SatAdd(Expected(q[..|q| - 1]), q[|q| - 1].amount)
  }

  function CreditRecord(recs: map<nat, Record>, id: nat, credit: nat): map<nat, Record> {
    if id !in recs then recs
    else recs[id := recs[id].(pendingBurn := SatAdd(recs[id].pendingBurn, credit), status := Retired)]
  }

  /** Credits the entries from `i` on: a floor of its share each, and the rest to the last. */
  function CreditFrom(recs: map<nat, Record>, q: seq<Entry>, i: nat, withdrawn: nat, expected: nat, credited: nat)
    : Result<map<nat, Record>, Error>
    requires i <= |q|
    decreases |q| - i
  {
    if i == |q| then Ok(recs)
    else
      var credit :- if i + 1 == |q| then Ok(SatSub(withdrawn, credited)) else MulDiv(q[i].amount, withdrawn, expected);
      CreditFrom(CreditRecord(recs, q[i].id, credit), q, i + 1, withdrawn, expected, SatAdd(credited, credit))
  }

  function Finalize(t: Treasury, id: nat): Result<Treasury, Error> {
    if id !in t.recs then Err(NoTreasury)
    else if !t.recs[id].status.Retiring? then Err(NotRetiring)
    else if t.era < t.recs[id].status.chunkEra then Err(NotMatured)
    else
      var w :- FromStaking(Withdraw(t.stake, t.era));
      var matured := DueEntries(t.queue, t.era, true);
      if Expected(matured) == 0 then Err(NothingToDo)
      else
        var recs :- CreditFrom(t.recs, matured, 0, w.amount, Expected(matured), 0);
        Ok(t.(stake := w.stake, recs := recs, queue := DueEntries(t.queue, t.era, false)))
  }

  // ---- settings -----------------------------------------------------------------------------

  predicate TermsInBounds(t: Terms) {
    10 <= t.maxBurnImpactBps <= 200 && t.keeperBountyBps <= 200 && t.dormancyBlocks > 0 && t.minStake > 0
  }

  function SetTerms(t: Treasury, terms: Terms): Result<Treasury, Error> {
    if TermsInBounds(terms) then Ok(t.(terms := terms)) else Err(TermsOutOfBounds)
  }

  function SetTargets(t: Treasury, targets: seq<nat>): Result<Treasury, Error> {
    if |targets| > t.config.maxTargets then Err(TermsOutOfBounds)
    else
      var t' := t.(targets := targets);
      Ok(if t.stake.Some? then Recooperate(t') else t')
  }

  function HarvestCall(t: Treasury): Result<Treasury, Error> {
    if Unattributed(t) == 0 then Err(NothingToDo) else Harvest(t)
  }

  // ---- the chain around it --------------------------------------------------------------------

  /** A validator's slash: it leaves the ledger and the vault alike. */
  function SlashVault(t: Treasury, bps: nat): Result<Treasury, Error> {
    if t.stake.None? || bps > BPS then Err(NothingToDo)
    else
      var l := Slash(t.stake.value, bps);
      SlashLowers(t.stake.value, bps);
      Ok(t.(stake := Some(l), vtrs := SatSub(t.vtrs, TotalOf(t.stake.value) - TotalOf(l))))
  }

  function Reward(t: Treasury, lnrg: nat): Result<Treasury, Error> {
    if t.lnrg + lnrg > U128_MAX then Err(PaymentFailed) else Ok(t.(lnrg := t.lnrg + lnrg))
  }

  function Donate(t: Treasury, vtrs: nat): Result<Treasury, Error> {
    if t.vtrs + vtrs > U128_MAX then Err(PaymentFailed) else Ok(t.(vtrs := t.vtrs + vtrs))
  }

  // ---- views --------------------------------------------------------------------------------------

  function ClaimableOf(perShare: nat, rec: Record): nat {
    rec.lnrgAccrued + SatSub(rec.shares * perShare / SCALE, rec.lnrgDebt)
  }

  /** What `shares` of `totalShares` are worth of `active`. */
  function Worth(shares: nat, totalShares: nat, active: nat): nat {
    if totalShares == 0 then 0 else shares * active / totalShares
  }

  function StakedValue(t: Treasury, id: nat): nat {
    if id in t.recs then Worth(t.recs[id].shares, t.totalShares, ActiveOf(t.stake)) else 0
  }
}
