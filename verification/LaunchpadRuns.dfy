/** What every run of launchpad calls keeps: solvent escrows, a one-way phase machine, exact fee splits. */
module LaunchpadRuns {
  import opened Arith
  import opened Results
  import opened Ledger
  import opened LaunchTerms
  import opened LaunchpadSpec
  import opened LaunchpadEffects
  import Curve
  import CurveHistory

  // ---- the invariant --------------------------------------------------------

  /** What an escrow owes in quote: its minimum (two until the pool's is paid), the curve's quote, the creator's. */
  function Owed(c: Config, s: CurveState): nat {
    (if s.phase == Graduated then 1 else 2) * c.existentialDeposit + s.realQuote + s.creatorFees
  }

  ghost predicate PhaseOk(c: Config, s: CurveState) {
    && (s.phase == Trading <==> s.tokensRemaining > 0)
    && (s.phase == Trading <==> s.completedAt.None?)
    && (s.phase == Graduated ==> s.realQuote == 0 && s.lpShares > 0 && s.graduatedAt.Some?)
    && s.tokensRemaining <= c.sellable
  }

  /** Until graduation the curve is priceable and has never lost `k`. */
  ghost predicate CurveOk(c: Config, curve: CurveParams, s: CurveState) {
    s.phase != Graduated ==>
      && Curve.Priceable(TermsOf(c, curve), CurveOf(s))
      && Curve.K(TermsOf(c, curve), CurveHistory.Created(c.sellable)) <= Curve.K(TermsOf(c, curve), CurveOf(s))
  }

  ghost predicate EscrowOk(p: Pad, id: nat)
    requires id in p.curves
  {
    var s := p.curves[id];
    && Owed(p.config, s) <= Bal(p.quote, Escrow(id))
    && (s.phase != Graduated ==> s.tokensRemaining + p.config.Reserved() <= Bal(p.tokens, (id, Escrow(id))))
  }

  ghost predicate LaunchOk(p: Pad, id: nat) {
    && id in p.launches && id in p.curves
    && p.launches[id].curve.curveFeeBps < BPS
    && p.launches[id].curve.protocolShareBps + p.launches[id].curve.treasuryShareBps <= BPS
    && PhaseOk(p.config, p.curves[id])
    && CurveOk(p.config, p.launches[id].curve, p.curves[id])
    && EscrowOk(p, id)
  }

  ghost predicate Inv(p: Pad) {
    && p.config.Valid() && ParamsInBounds(p.config, p.params)
    && p.launches.Keys == p.curves.Keys
    && (forall id :: id in p.curves ==> id < p.nextId && LaunchOk(p, id))
  }

  // ---- frames -----------------------------------------------------------------

  /** Only launch `id` changed, and no other escrow lost anything. */
  ghost predicate OnlyTouches(p: Pad, p': Pad, id: nat) {
    && p'.config == p.config && p'.params == p.params && p'.nextId == p.nextId
    && p'.launches.Keys == p.launches.Keys && p'.curves.Keys == p.curves.Keys
    && (forall i :: i in p.curves && i != id ==>
          && i in p'.curves && p'.curves[i] == p.curves[i]
          && Bal(p.quote, Escrow(i)) <= Bal(p'.quote, Escrow(i))
          && Bal(p.tokens, (i, Escrow(i))) <= Bal(p'.tokens, (i, Escrow(i))))
    && (forall i :: i in p.launches ==> i in p'.launches && p'.launches[i].curve == p.launches[i].curve)
    && Total(p'.quote) == Total(p.quote)
  }

  lemma TouchKeepsInv(p: Pad, p': Pad, id: nat)
    requires Inv(p) && OnlyTouches(p, p', id)
    requires id in p'.curves ==> LaunchOk(p', id)
    ensures Inv(p')
  {
    forall i | i in p'.curves
      ensures i < p'.nextId && LaunchOk(p', i)
    {
      assert i in p.curves && LaunchOk(p, i);
    }
  }

  // ---- calls ------------------------------------------------------------------

  /** No escrow but `id`'s moves, in either ledger. */
  ghost predicate OnlyEscrow(q: map<Account, nat>, t: map<(nat, Account), nat>, q': map<Account, nat>,
                             t': map<(nat, Account), nat>, id: nat) {
    && (forall i :: i != id ==> Bal(q', Escrow(i)) == Bal(q, Escrow(i)))
    && (forall i :: i != id ==> Bal(t', (i, Escrow(i))) == Bal(t, (i, Escrow(i))))
    && Total(q') == Total(q)
  }

  /** A buy's record, where its phase and its curve were in order. */
  lemma BuyRecordOk(c: Config, curve: CurveParams, s: CurveState, s': CurveState, toCurve: U128, parts: FeeSplit,
                    now: nat, isTrade: bool)
    requires Curve.QuoteBuy(TermsOf(c, curve), CurveOf(s), toCurve).Ok?
    requires s.phase == Trading && PhaseOk(c, s) && CurveOk(c, curve, s)
    requires BuyRecorded(s, s', Curve.QuoteBuy(TermsOf(c, curve), CurveOf(s), toCurve).value, parts, now, isTrade)
    ensures PhaseOk(c, s') && CurveOk(c, curve, s')
  {
    CurveHistory.BuyFits(TermsOf(c, curve), CurveOf(s), toCurve);
    assert CurveOf(s') == Curve.AfterBuy(CurveOf(s), Curve.QuoteBuy(TermsOf(c, curve), CurveOf(s), toCurve).value);
  }

  lemma SellRecordOk(c: Config, curve: CurveParams, s: CurveState, s': CurveState, tokensIn: U128, parts: FeeSplit,
                     now: nat)
    requires Curve.QuoteSell(TermsOf(c, curve), CurveOf(s), tokensIn).Ok?
    requires s.phase == Trading && PhaseOk(c, s) && CurveOk(c, curve, s) && s.tokensRemaining + tokensIn <= c.sellable
    requires SellRecorded(s, s', tokensIn, Curve.QuoteSell(TermsOf(c, curve), CurveOf(s), tokensIn).value, parts, now)
    ensures PhaseOk(c, s') && CurveOk(c, curve, s')
  {
    CurveHistory.SellKeepsK(TermsOf(c, curve), CurveOf(s), tokensIn);
    assert CurveOf(s')
        == Curve.AfterSell(CurveOf(s), tokensIn, Curve.QuoteSell(TermsOf(c, curve), CurveOf(s), tokensIn).value);
  }

  /** Of the escrows a buy moves its own: in, what is not paid out again; out, the tokens. */
  lemma BuyEscrow(p: Pad, p': Pad, who: Account, id: nat, b: Curve.BuyQuote, extra: nat, isTrade: bool, sinkOpen: bool)
    requires Trader(who) && id in p.launches && id in p.curves
    requires BoughtAt(p, p', who, id, b, extra, isTrade, sinkOpen) && b.quoteUsed == b.quoteNetUsed + b.fee
    ensures Replaced(p, p', id)
    ensures var parts := Divided(p.config, p.launches[id].curve, b.fee, sinkOpen,
                                 VaultAt(p.quote, who, extra + b.quoteUsed));
            && Bal(p'.quote, Escrow(id)) == Bal(p.quote, Escrow(id)) + b.quoteNetUsed + parts.creator
            && Bal(p'.tokens, (id, Escrow(id))) == Bal(p.tokens, (id, Escrow(id))) - b.tokensOut
  {
  }

  /** Of the escrows a sell moves its own: out, the gross less the creator's part; in, the tokens. */
  lemma SellEscrow(p: Pad, p': Pad, who: Account, id: nat, tokensIn: nat, x: Curve.SellQuote, sinkOpen: bool)
    requires Trader(who) && id in p.launches && id in p.curves
    requires SoldAt(p, p', who, id, tokensIn, x, sinkOpen) && x.quoteGross == x.quoteOut + x.fee
    ensures Replaced(p, p', id)
    ensures var parts := Divided(p.config, p.launches[id].curve, x.fee, sinkOpen, Bal(p.quote, Vault));
            && Bal(p'.quote, Escrow(id)) == Bal(p.quote, Escrow(id)) - x.quoteGross + parts.creator
            && Bal(p'.tokens, (id, Escrow(id))) == Bal(p.tokens, (id, Escrow(id))) + tokensIn
  {
  }

  /** `p'` is `p` with launch `id`'s curve and the two ledgers replaced. */
  ghost predicate Replaced(p: Pad, p': Pad, id: nat) {
    && id in p.curves && id in p'.curves
    && p' == p.(curves := p.curves[id := p'.curves[id]], quote := p'.quote, tokens := p'.tokens)
    && OnlyEscrow(p.quote, p.tokens, p'.quote, p'.tokens, id)
  }

  /** What a buy did, before any seed. */
  lemma BuyEffect(p: Pad, who: Account, id: nat, quoteIn: U128, min: nat, isTrade: bool, env: Env)
    requires LaunchOk(p, id) && Trader(who) && BuyBeforeSeed(p, who, id, quoteIn, min, isTrade, env).Ok?
    ensures var b := BuyBeforeSeed(p, who, id, quoteIn, min, isTrade, env).value;
            && Replaced(p, b.pad, id) && LaunchOk(b.pad, id)
            && p.curves[id].phase == Trading
            && b.pad.curves[id].phase == (if b.crossed then Complete else Trading)
            && b.tokensOut >= min
            && b.treasuryFee <= b.quoteUsed <= env.hook.value.0
  {
    BuyExactly(p, who, id, quoteIn, min, isTrade, env);
    var f := BuyBeforeSeed(p, who, id, quoteIn, min, isTrade, env).value;
    BoughtOk(p, f.pad, who, id, env.hook.value.0, env.hook.value.1, isTrade, env.sinkOpen);
  }

  lemma BoughtOk(p: Pad, p': Pad, who: Account, id: nat, toCurve: U128, extra: nat, isTrade: bool, sinkOpen: bool)
    requires LaunchOk(p, id) && Trader(who) && p.curves[id].phase == Trading && BuyPrice(p, id, toCurve).Ok?
    requires BoughtAt(p, p', who, id, BuyPrice(p, id, toCurve).value, extra, isTrade, sinkOpen)
    ensures Replaced(p, p', id) && LaunchOk(p', id)
    ensures var b := BuyPrice(p, id, toCurve).value;
            && p'.curves[id].phase == (if b.tokensOut == p.curves[id].tokensRemaining then Complete else Trading)
            && Divided(p.config, p.launches[id].curve, b.fee, sinkOpen,
                       VaultAt(p.quote, who, extra + b.quoteUsed)).treasury <= b.quoteUsed
  {
    var launch, s, c := p.launches[id], p.curves[id], p.config;
    var b := BuyPrice(p, id, toCurve).value;
    var parts := Divided(c, launch.curve, b.fee, sinkOpen, VaultAt(p.quote, who, extra + b.quoteUsed));
    CurveHistory.BuyFits(TermsOf(c, launch.curve), CurveOf(s), toCurve);
    BuyRecordOk(c, launch.curve, s, p'.curves[id], toCurve, parts, p.now, isTrade);
    BuyEscrow(p, p', who, id, b, extra, isTrade, sinkOpen);
    BuyCovered(p, p', id, b, parts, isTrade);
  }

  /** What comes into an escrow with a buy covers what its record owes on top. */
  lemma BuyCovered(p: Pad, p': Pad, id: nat, b: Curve.BuyQuote, parts: FeeSplit, isTrade: bool)
    requires id in p.curves && id in p'.curves && EscrowOk(p, id) && p.curves[id].phase == Trading
    requires p'.config == p.config && BuyRecorded(p.curves[id], p'.curves[id], b, parts, p.now, isTrade)
    requires Bal(p'.quote, Escrow(id)) == Bal(p.quote, Escrow(id)) + b.quoteNetUsed + parts.creator
    requires Bal(p'.tokens, (id, Escrow(id))) == Bal(p.tokens, (id, Escrow(id))) - b.tokensOut
    ensures EscrowOk(p', id)
  {
  }

  lemma SeedEffect(p: Pad, id: nat, seeding: Seeding)
    requires LaunchOk(p, id) && Seed(p, id, seeding).Ok?
    ensures var p' := Seed(p, id, seeding).value;
            && Replaced(p, p', id) && LaunchOk(p', id)
            && p.curves[id].phase == Complete && p'.curves[id].phase == Graduated
            && p'.curves[id].creatorFees == p.curves[id].creatorFees
  {
    SeedExactly(p, id, seeding);
  }

  lemma ReplacedTouches(p: Pad, p': Pad, id: nat)
    requires Replaced(p, p', id)
    ensures OnlyTouches(p, p', id)
  {
  }

  /** A call that replaces one launch well keeps every launch well. */
  lemma ReplacedKeepsInv(p: Pad, p': Pad, id: nat)
    requires Inv(p) && Replaced(p, p', id) && LaunchOk(p', id)
    ensures Inv(p') && OnlyTouches(p, p', id)
  {
    ReplacedTouches(p, p', id);
    TouchKeepsInv(p, p', id);
  }

  lemma BuyKeepsInv(p: Pad, who: Account, id: nat, quoteIn: U128, min: nat, isTrade: bool, env: Env)
    requires Inv(p) && Trader(who) && Buy(p, who, id, quoteIn, min, isTrade, env).Ok?
    ensures Inv(Buy(p, who, id, quoteIn, min, isTrade, env).value.pad)
    ensures OnlyTouches(p, Buy(p, who, id, quoteIn, min, isTrade, env).value.pad, id)
    ensures id in p.curves && p.curves[id].phase == Trading
  {
    var b := BuyBeforeSeed(p, who, id, quoteIn, min, isTrade, env).value;
    assert LaunchOk(p, id);
    BuyEffect(p, who, id, quoteIn, min, isTrade, env);
    ReplacedKeepsInv(p, b.pad, id);
    if b.crossed && Seed(b.pad, id, env.seeding).Ok? {
      SeedEffect(b.pad, id, env.seeding);
      ReplacedKeepsInv(b.pad, Seed(b.pad, id, env.seeding).value, id);
    }
  }

  lemma SellEffect(p: Pad, who: Account, id: nat, tokensIn: U128, min: nat, env: Env)
    requires LaunchOk(p, id) && Trader(who) && Sell(p, who, id, tokensIn, min, env).Ok?
    ensures var x := Sell(p, who, id, tokensIn, min, env).value;
            && Replaced(p, x.pad, id) && LaunchOk(x.pad, id)
            && p.curves[id].phase == Trading && x.pad.curves[id].phase == Trading
            && x.traded == p.curves[id].realQuote - x.pad.curves[id].realQuote
            && x.treasuryFee <= x.traded
  {
    SellExactly(p, who, id, tokensIn, min, env);
    SoldOk(p, Sell(p, who, id, tokensIn, min, env).value.pad, who, id, tokensIn, env.sinkOpen);
  }

  lemma SoldOk(p: Pad, p': Pad, who: Account, id: nat, tokensIn: U128, sinkOpen: bool)
    requires LaunchOk(p, id) && Trader(who) && p.curves[id].phase == Trading && SellPrice(p, id, tokensIn).Ok?
    requires tokensIn + p.curves[id].tokensRemaining <= p.config.sellable
    requires SoldAt(p, p', who, id, tokensIn, SellPrice(p, id, tokensIn).value, sinkOpen)
    ensures Replaced(p, p', id) && LaunchOk(p', id)
    ensures p'.curves[id].phase == Trading
    ensures SellPrice(p, id, tokensIn).value.quoteGross == p.curves[id].realQuote - p'.curves[id].realQuote
    ensures Divided(p.config, p.launches[id].curve, SellPrice(p, id, tokensIn).value.fee, sinkOpen,
                    Bal(p.quote, Vault)).treasury <= SellPrice(p, id, tokensIn).value.quoteGross
  {
    var launch, s, c := p.launches[id], p.curves[id], p.config;
    var x := SellPrice(p, id, tokensIn).value;
    var parts := Divided(c, launch.curve, x.fee, sinkOpen, Bal(p.quote, Vault));
    CurveHistory.SellFits(TermsOf(c, launch.curve), CurveOf(s), tokensIn);
    SellRecordOk(c, launch.curve, s, p'.curves[id], tokensIn, parts, p.now);
    SellEscrow(p, p', who, id, tokensIn, x, sinkOpen);
    SellCovered(p, p', id, tokensIn, x, parts);
  }

  /** What leaves an escrow with a sell is what its record owes less. */
  lemma SellCovered(p: Pad, p': Pad, id: nat, tokensIn: nat, x: Curve.SellQuote, parts: FeeSplit)
    requires id in p.curves && id in p'.curves && EscrowOk(p, id) && p.curves[id].phase == Trading
    requires p'.config == p.config && SellRecorded(p.curves[id], p'.curves[id], tokensIn, x, parts, p.now)
    requires Bal(p'.quote, Escrow(id)) == Bal(p.quote, Escrow(id)) - x.quoteGross + parts.creator
    requires Bal(p'.tokens, (id, Escrow(id))) == Bal(p.tokens, (id, Escrow(id))) + tokensIn
    ensures EscrowOk(p', id)
  {
  }

  lemma ClaimEffect(p: Pad, who: Account, id: nat)
    requires LaunchOk(p, id) && who.User? && ClaimCreatorFees(p, who, id).Ok?
    ensures var p' := ClaimCreatorFees(p, who, id).value;
            && Replaced(p, p', id) && LaunchOk(p', id)
            && Bal(p'.quote, who) == Bal(p.quote, who) + p.curves[id].creatorFees
            && p'.curves[id] == p.curves[id].(creatorFees := 0)
  {
    ClaimExactly(p, who, id);
  }

  /** The creator can always claim: nothing but the recipient's own account can refuse the payment. */
  lemma ClaimIsCovered(p: Pad, who: Account, id: nat)
    requires Inv(p) && id in p.launches && who == p.launches[id].feeRecipient
    requires p.curves[id].creatorFees > 0
    ensures ClaimCreatorFees(p, who, id).Ok? <==>
            CanDeposit(p.quote, who, p.curves[id].creatorFees, p.config.existentialDeposit)
  {
    assert LaunchOk(p, id);
  }

  /** A new escrow starts with two minimums, and no other escrow pays for it. */
  lemma OpenedEscrow(c: Config, q: map<Account, nat>, q': map<Account, nat>, creator: Account, id: nat, fee: nat)
    requires creator.User? && Opened(c, q, q', creator, id, fee)
    requires 2 * c.existentialDeposit + c.assetDeposits <= fee
    ensures 2 * c.existentialDeposit <= Bal(q', Escrow(id))
    ensures forall i :: i != id ==> Bal(q', Escrow(i)) == Bal(q, Escrow(i))
  {
  }

  lemma OpenKeepsInv(p: Pad, creator: Account, recipient: Option<Account>, poolExists: bool)
    requires Inv(p) && creator.User? && Open(p, creator, recipient, poolExists).Ok?
    ensures var p' := Open(p, creator, recipient, poolExists).value;
            && Inv(p') && p'.nextId == p.nextId + 1 && p.nextId !in p.curves
            && (forall i :: i in p.curves ==> i in p'.curves && p'.curves[i] == p.curves[i])
            && Total(p'.quote) == Total(p.quote)
  {
    OpenExactly(p, creator, recipient, poolExists);
    OpenedEscrow(p.config, p.quote, Open(p, creator, recipient, poolExists).value.quote, creator, p.nextId,
                 p.params.creationFee);
    OpenedKeepsInv(p, Open(p, creator, recipient, poolExists).value);
  }

  /** One more launch, with what it needs in its escrow. */
  lemma OpenedKeepsInv(p: Pad, p': Pad)
    requires Inv(p) && p.nextId in p'.launches && p.nextId in p'.curves
    requires var id := p.nextId;
             && p' == p.(nextId := id + 1, launches := p.launches[id := p'.launches[id]],
                         curves := p.curves[id := p'.curves[id]], quote := p'.quote,
                         tokens := p.tokens[(id, Escrow(id)) := p.config.totalSupply])
             && p'.launches[id].curve == Snapshot(p.params)
             && p'.curves[id] == CurveState(Trading, 0, p.config.sellable, 0, 0, 0, p.now, None, None, 0)
             && 2 * p.config.existentialDeposit <= Bal(p'.quote, Escrow(id))
             && forall i :: i != id ==> Bal(p'.quote, Escrow(i)) == Bal(p.quote, Escrow(i))
    ensures Inv(p')
  {
    FreshLaunchOk(p', p.nextId);
    forall i | i in p'.curves
      ensures i < p'.nextId && LaunchOk(p', i)
    {
      if i != p.nextId {
        assert LaunchOk(p, i);
        UntouchedLaunchOk(p, p', i);
      }
    }
  }

  lemma UntouchedLaunchOk(p: Pad, p': Pad, id: nat)
    requires LaunchOk(p, id) && p'.config == p.config && id in p'.launches && id in p'.curves
    requires p'.launches[id] == p.launches[id] && p'.curves[id] == p.curves[id]
    requires Bal(p'.quote, Escrow(id)) == Bal(p.quote, Escrow(id))
    requires Bal(p'.tokens, (id, Escrow(id))) == Bal(p.tokens, (id, Escrow(id)))
    ensures LaunchOk(p', id)
  {
  }

  /** A launch nobody has traded yet. */
  lemma FreshLaunchOk(p: Pad, id: nat)
    requires p.config.Valid() && ParamsInBounds(p.config, p.params) && id in p.launches && id in p.curves
    requires p.launches[id].curve == Snapshot(p.params)
    requires p.curves[id] == CurveState(Trading, 0, p.config.sellable, 0, 0, 0, p.now, None, None, 0)
    requires 2 * p.config.existentialDeposit <= Bal(p.quote, Escrow(id))
    requires Bal(p.tokens, (id, Escrow(id))) == p.config.totalSupply
    ensures LaunchOk(p, id)
  {
  }

  lemma ForceSeedEffect(p: Pad, id: nat, dev: nat, poolExists: bool, took: Option<Taken>)
    requires LaunchOk(p, id) && ForceSeed(p, id, dev, poolExists, took).Ok?
    ensures var p' := ForceSeed(p, id, dev, poolExists, took).value;
            && Replaced(p, p', id) && LaunchOk(p', id)
            && p.curves[id].phase == Complete && p'.curves[id].phase == Graduated
            && p'.curves[id].creatorFees == p.curves[id].creatorFees
  {
    RescueExactly(p, id, dev, poolExists, took);
  }

  // ---- runs -------------------------------------------------------------------

  datatype Call =
    | CallCreate(creator: nat, recipient: Option<Account>, poolExists: bool, initialBuy: U128, minOut: nat, env: Env)
    | CallBuy(who: nat, id: nat, quoteIn: U128, minOut: nat, env: Env)
    | CallVaultBuy(id: nat, quoteIn: U128, minOut: nat, env: Env)
    | CallSell(who: nat, id: nat, tokensIn: U128, minOut: nat, env: Env)
    | CallGraduate(id: nat, seeding: Seeding)
    | CallClaim(who: nat, id: nat)
    | CallSetRecipient(who: nat, id: nat, to: Account)
    | CallForceSeed(id: nat, deviation: nat, poolExists: bool, took: Option<Taken>)
    | CallSetParams(params: LaunchParams)
    | CallPause(paused: bool)
    | CallPay(from: nat, to: Account, amount: nat)
    | NextBlock

  function Dispatch(p: Pad, call: Call): Result<Pad, Error> {
    match call
    case CallCreate(creator, recipient, poolExists, initialBuy, minOut, env) =>
      CreateLaunch(p, User(creator), recipient, poolExists, initialBuy, minOut, env)
    case CallBuy(who, id, quoteIn, minOut, env) =>
      var b :- Buy(p, User(who), id, quoteIn, minOut, true, env); Ok(b.pad)
    case CallVaultBuy(id, quoteIn, minOut, env) =>
      var b :- Buy(p, Vault, id, quoteIn, minOut, false, env); Ok(b.pad)
    case CallSell(who, id, tokensIn, minOut, env) =>
      var x :- Sell(p, User(who), id, tokensIn, minOut, env); Ok(x.pad)
    case CallGraduate(id, seeding) => Seed(p, id, seeding)
    case CallClaim(who, id) => ClaimCreatorFees(p, User(who), id)
    case CallSetRecipient(who, id, to) => SetFeeRecipient(p, User(who), id, to)
    case CallForceSeed(id, deviation, poolExists, took) => ForceSeed(p, id, deviation, poolExists, took)
    case CallSetParams(params) => SetParams(p, params)
    case CallPause(paused) => Ok(p.(paused := paused))
    case CallPay(from, to, amount) => Pay(p, User(from), to, amount)
    case NextBlock => Ok(p.(now := p.now + 1))
  }

  /** A refused call leaves no trace. */
  function Step(p: Pad, call: Call): Pad {
    match Dispatch(p, call)
    case Ok(p') => p'
    case Err(_) => p
  }

  function Run(p: Pad, calls: seq<Call>): Pad
    decreases |calls|
  {
    if calls == [] then p else Run(Step(p, calls[0]), calls[1..])
  }

  function Rank(phase: Phase): nat {
    match phase
    case Trading => 0
    case Complete => 1
    case Graduated => 2
  }

  /** What one call guarantees about every launch that existed before it. */
  ghost predicate Progress(p: Pad, p': Pad) {
    && (forall id :: id in p.curves ==>
          && id in p'.curves
          && Rank(p.curves[id].phase) <= Rank(p'.curves[id].phase)
          && (p.curves[id].phase == Graduated ==>
                p'.curves[id] == p.curves[id].(creatorFees := p'.curves[id].creatorFees)))
    && Total(p'.quote) == Total(p.quote)
  }

  lemma TouchProgress(p: Pad, p': Pad, id: nat)
    requires OnlyTouches(p, p', id)
    requires id in p.curves ==>
               && Rank(p.curves[id].phase) <= Rank(p'.curves[id].phase)
               && (p.curves[id].phase == Graduated ==>
                     p'.curves[id] == p.curves[id].(creatorFees := p'.curves[id].creatorFees))
    ensures Progress(p, p')
  {
  }

  lemma BuyStep(p: Pad, who: Account, id: nat, quoteIn: U128, min: nat, isTrade: bool, env: Env)
    requires Inv(p) && Trader(who) && Buy(p, who, id, quoteIn, min, isTrade, env).Ok?
    ensures Inv(Buy(p, who, id, quoteIn, min, isTrade, env).value.pad)
    ensures Progress(p, Buy(p, who, id, quoteIn, min, isTrade, env).value.pad)
  {
    BuyKeepsInv(p, who, id, quoteIn, min, isTrade, env);
    TouchProgress(p, Buy(p, who, id, quoteIn, min, isTrade, env).value.pad, id);
  }

  /** Every call keeps the invariant and only moves phases forward. */
  lemma StepKeepsInv(p: Pad, call: Call)
    requires Inv(p)
    ensures Inv(Step(p, call)) && Progress(p, Step(p, call))
  {
    if Dispatch(p, call).Ok? {
      match call
      case CallCreate(_, _, _, _, _, _) => CreateStep(p, call);
      case CallBuy(who, id, quoteIn, minOut, env) => BuyStep(p, User(who), id, quoteIn, minOut, true, env);
      case CallVaultBuy(id, quoteIn, minOut, env) => BuyStep(p, Vault, id, quoteIn, minOut, false, env);
      case CallSell(_, _, _, _, _) => LaunchStep(p, call, call.id);
      case CallGraduate(_, _) => LaunchStep(p, call, call.id);
      case CallClaim(_, _) => LaunchStep(p, call, call.id);
      case CallForceSeed(_, _, _, _) => LaunchStep(p, call, call.id);
      case _ => QuietStep(p, call);
    }
  }

  lemma CreateStep(p: Pad, call: Call)
    requires Inv(p) && call.CallCreate? && Dispatch(p, call).Ok?
    ensures Inv(Step(p, call)) && Progress(p, Step(p, call))
  {
    var p1 := Open(p, User(call.creator), call.recipient, call.poolExists).value;
    OpenKeepsInv(p, User(call.creator), call.recipient, call.poolExists);
    if call.initialBuy > 0 {
      BuyStep(p1, User(call.creator), p.nextId, call.initialBuy, call.minOut, true, call.env);
      ProgressTransitive(p, p1, Step(p, call));
    }
  }

  /** The calls that replace one launch's curve. */
  lemma LaunchStep(p: Pad, call: Call, id: nat)
    requires Inv(p) && Dispatch(p, call).Ok?
    requires call.CallSell? || call.CallGraduate? || call.CallClaim? || call.CallForceSeed?
    requires id == call.id
    ensures Inv(Step(p, call)) && Progress(p, Step(p, call))
  {
    assert LaunchOk(p, id);
    match call {
      case CallSell(who, _, tokensIn, minOut, env) => SellEffect(p, User(who), id, tokensIn, minOut, env);
      case CallGraduate(_, seeding) => SeedEffect(p, id, seeding);
      case CallClaim(who, _) => ClaimEffect(p, User(who), id);
      case CallForceSeed(_, deviation, poolExists, took) => ForceSeedEffect(p, id, deviation, poolExists, took);
    }
    ReplacedKeepsInv(p, Step(p, call), id);
    TouchProgress(p, Step(p, call), id);
  }

  /** The calls that touch no curve. */
  lemma QuietStep(p: Pad, call: Call)
    requires Inv(p) && Dispatch(p, call).Ok?
    requires call.CallSetRecipient? || call.CallSetParams? || call.CallPause? || call.CallPay? || call.NextBlock?
    ensures Inv(Step(p, call)) && Progress(p, Step(p, call))
  {
    if call.CallPay? {
      PayStep(p, User(call.from), call.to, call.amount);
    } else {
      PassiveKeepsInv(p, Step(p, call));
    }
  }

  lemma PayStep(p: Pad, from: Account, to: Account, amount: nat)
    requires Inv(p) && from.User? && Pay(p, from, to, amount).Ok?
    ensures Inv(Pay(p, from, to, amount).value) && Progress(p, Pay(p, from, to, amount).value)
  {
    PayEffect(p.config, p.quote, from, to, amount);
    PassiveKeepsInv(p, Pay(p, from, to, amount).value);
  }

  lemma ProgressTransitive(p: Pad, p1: Pad, p2: Pad)
    requires Progress(p, p1) && Progress(p1, p2)
    ensures Progress(p, p2)
  {
  }

  /** A step that touches no launch record and drains no escrow. */
  lemma PassiveKeepsInv(p: Pad, p': Pad)
    requires Inv(p) && p'.config == p.config && p'.curves == p.curves && p'.launches.Keys == p.launches.Keys
    requires forall i :: i in p.launches ==> p'.launches[i].curve == p.launches[i].curve
    requires p'.nextId == p.nextId && p'.tokens == p.tokens && ParamsInBounds(p'.config, p'.params)
    requires forall i :: Bal(p.quote, Escrow(i)) <= Bal(p'.quote, Escrow(i))
    ensures Inv(p')
  {
    forall i | i in p'.curves
      ensures i < p'.nextId && LaunchOk(p', i)
    {
      assert LaunchOk(p, i);
    }
  }

  /** Over every run: escrows stay solvent, phases only move forward, a graduated curve is frozen, quote is conserved.
      */
  lemma {:induction false} RunKeepsInv(p: Pad, calls: seq<Call>)
    requires Inv(p)
    ensures Inv(Run(p, calls)) && Progress(p, Run(p, calls))
    decreases |calls|
  {
    if calls != [] {
      var p1 := Step(p, calls[0]);
      StepKeepsInv(p, calls[0]);
      RunKeepsInv(p1, calls[1..]);
      ProgressTransitive(p, p1, Run(p, calls));
    }
  }

  /** A launchpad before its first launch: valid constants, settings in bounds, and any balances. */
  function Genesis(c: Config, params: SettableParams, now: nat, quote: map<Account, nat>,
                   tokens: map<(nat, Account), nat>): Pad
  {
    Pad(c, params, false, now, 0, map[], map[], quote, tokens)
  }

  /** Every run from there keeps the invariant. */
  lemma GenesisInv(c: Config, params: SettableParams, now: nat, quote: map<Account, nat>,
                   tokens: map<(nat, Account), nat>, calls: seq<Call>)
    requires c.Valid() && ParamsInBounds(c, params)
    ensures Inv(Genesis(c, params, now, quote, tokens)) && Inv(Run(Genesis(c, params, now, quote, tokens), calls))
  {
    RunKeepsInv(Genesis(c, params, now, quote, tokens), calls);
  }

  // ---- consequences -------------------------------------------------------------

  /** A complete curve raised at least what its terms advertised, whatever was traded on the way. */
  lemma CompleteRaisedAdvertised(p: Pad, calls: seq<Call>, id: nat)
    requires Inv(p) && id in Run(p, calls).curves && Run(p, calls).curves[id].phase == Complete
    ensures id in Run(p, calls).launches
    ensures var p' := Run(p, calls);
            && p'.config.tokenFloor > 0
            && var raise := Curve.RaiseAtSellout(TermsOf(p'.config, p'.launches[id].curve), p'.config.sellable);
               raise.Some? ==> raise.value <= p'.curves[id].realQuote
  {
    RunKeepsInv(p, calls);
    CompleteRaised(Run(p, calls), id);
  }

  lemma CompleteRaised(p: Pad, id: nat)
    requires p.config.Valid() && LaunchOk(p, id) && p.curves[id].phase == Complete
    ensures var raise := Curve.RaiseAtSellout(TermsOf(p.config, p.launches[id].curve), p.config.sellable);
            raise.Some? ==> raise.value <= p.curves[id].realQuote
  {
    CurveHistory.EmptyCurveRaised(TermsOf(p.config, p.launches[id].curve), p.config.sellable, CurveOf(p.curves[id]));
  }

  /**
   The three-way split is exact on every buy: what the two receivers gained and the creator is owed is the fee,
   and what the escrow gained is the curve's share plus the creator's, whether or not the treasury part folds.
   */
  lemma BuySplitsExactly(p: Pad, who: nat, id: nat, quoteIn: U128, min: nat, env: Env)
    requires Inv(p) && BuyBeforeSeed(p, User(who), id, quoteIn, min, true, env).Ok?
    ensures var b := BuyBeforeSeed(p, User(who), id, quoteIn, min, true, env).value;
            var quote := Curve.QuoteBuy(TermsOf(p.config, p.launches[id].curve), CurveOf(p.curves[id]),
                                        env.hook.value.0);
            var toProtocol := Bal(b.pad.quote, ProtocolTreasury) - Bal(p.quote, ProtocolTreasury) - env.hook.value.1;
            var toVault := Bal(b.pad.quote, Vault) - Bal(p.quote, Vault);
            var creator := Bal(b.pad.quote, Escrow(id)) - Bal(p.quote, Escrow(id)) - quote.value.quoteNetUsed;
            && quote.Ok?
            && toProtocol + toVault + creator == quote.value.fee
            && toVault == b.treasuryFee && (toVault > 0 ==> env.sinkOpen)
            && 0 <= creator && 0 <= toProtocol
            && Bal(b.pad.quote, User(who)) == Bal(p.quote, User(who)) - quote.value.quoteUsed - env.hook.value.1
            && (p.curves[id].creatorFees + creator <= U128_MAX ==>
                  b.pad.curves[id].creatorFees == p.curves[id].creatorFees + creator)
  {
    assert LaunchOk(p, id);
    BuyExactly(p, User(who), id, quoteIn, min, true, env);
    CurveHistory.BuyFits(TermsOf(p.config, p.launches[id].curve), CurveOf(p.curves[id]), env.hook.value.0);
  }

  /** A refused seed leaves the crossing buy in place; retrying in the same block ends where a nested seed would. */
  lemma DeferredSeedIsTheSame(p: Pad, who: Account, id: nat, quoteIn: U128, min: nat, isTrade: bool,
                              env: Env)
    requires LaunchOk(p, id) && Trader(who)
    requires Buy(p, who, id, quoteIn, min, isTrade, env.(seeding := SeedRefused)).Ok?
    ensures var deferred := Buy(p, who, id, quoteIn, min, isTrade, env.(seeding := SeedRefused)).value;
            && deferred.pad.curves[id].phase == (if deferred.crossed then Complete else Trading)
            && Buy(p, who, id, quoteIn, min, isTrade, env).Ok?
            && var nested := Buy(p, who, id, quoteIn, min, isTrade, env).value;
            && nested.(pad := deferred.pad) == deferred
            && (deferred.crossed && Seed(deferred.pad, id, env.seeding).Ok? ==>
                  Seed(deferred.pad, id, env.seeding) == Ok(nested.pad))
            && (!deferred.crossed || Seed(deferred.pad, id, env.seeding).Err? ==> nested == deferred)
  {
    SameBeforeSeed(p, who, id, quoteIn, min, isTrade, env, env.(seeding := SeedRefused));
    BuyEffect(p, who, id, quoteIn, min, isTrade, env);
  }

  lemma SameBeforeSeed(p: Pad, who: Account, id: nat, quoteIn: U128, min: nat, isTrade: bool, a: Env, b: Env)
    requires a.hook == b.hook && a.sinkOpen == b.sinkOpen
    ensures BuyBeforeSeed(p, who, id, quoteIn, min, isTrade, a) == BuyBeforeSeed(p, who, id, quoteIn, min, isTrade, b)
  {
  }
}
