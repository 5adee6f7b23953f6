/** What each launchpad call moves and records when it goes through: every balance of both ledgers, every field. */
module LaunchpadEffects {
  import opened Arith
  import opened Results
  import opened Ledger
  import opened LaunchTerms
  import opened LaunchpadSpec
  import Curve
  import CurveHistory

  // ---- payments ---------------------------------------------------------------

  lemma PayEffect(c: Config, q: map<Account, nat>, from: Account, to: Account, amount: nat)
    requires PayQuote(c, q, from, to, amount).Ok?
    ensures var q' := PayQuote(c, q, from, to, amount).value;
            && (forall a :: Bal(q', a) == Bal(q, a) + Delta(a, from, to, amount))
            && Total(q') == Total(q)
    ensures amount + c.existentialDeposit <= Bal(q, from)
  {
    TransferEffect(q, from, to, amount, c.existentialDeposit, c.existentialDeposit);
  }

  /** `t'` is `t` after `amount` of launch `id`'s token went from one account to another. */
  ghost predicate Delivered(t: map<(nat, Account), nat>, t': map<(nat, Account), nat>, id: nat, from: Account,
                            to: Account, amount: nat)
  {
    && (forall i, a :: Bal(t', (i, a)) == Bal(t, (i, a)) + (if i == id then Delta(a, from, to, amount) else 0))
    && Total(t') == Total(t)
  }

  lemma PayTokensEffect(t: map<(nat, Account), nat>, id: nat, from: Account, to: Account, amount: nat)
    requires PayTokens(t, id, from, to, amount).Ok?
    ensures Delivered(t, PayTokens(t, id, from, to, amount).value, id, from, to, amount)
  {
    TransferEffect(t, (id, from), (id, to), amount, 0, 1);
  }

  // ---- the parts of a fee -----------------------------------------------------------

  /** An account that holds `holds` can take `amount`. */
  predicate Lands(c: Config, holds: nat, amount: nat) {
    amount > 0 ==> c.existentialDeposit <= holds + amount <= U128_MAX
  }

  /** Who gets what of a fee, given what the vault holds: floored shares to protocol and treasury, the rest to the
      creator; a treasury share that nobody takes joins the protocol's. */
  function Divided(c: Config, curve: SplittableParams, fee: U128, sinkOpen: bool, vaultHolds: nat): (r: FeeSplit)
    ensures r.protocol + r.treasury + r.creator == fee
  {
    SharesFit(fee, curve.protocolShareBps, curve.treasuryShareBps);
    var p := Min(fee * curve.protocolShareBps, U128_MAX) / 10_000;
    var t := Min(fee * curve.treasuryShareBps, U128_MAX) / 10_000;
    if sinkOpen && Lands(c, vaultHolds, t) then FeeSplit(p, t, fee - p - t) else FeeSplit(p + t, 0, fee - p - t)
  }

  /** `q'` is `q` after an escrow paid the protocol's and the treasury's part of a fee. */
  ghost predicate PartsPaid(q: map<Account, nat>, q': map<Account, nat>, id: nat, protocol: nat, treasury: nat) {
    && (forall a :: Bal(q', a) == Bal(q, a) + Delta(a, Escrow(id), ProtocolTreasury, protocol)
                                  + Delta(a, Escrow(id), Vault, treasury))
    && Total(q') == Total(q)
  }

  /** The fee parts leave the escrow in full and reach nobody but their receivers: the treasury's the vault, if the sink
      is open and the vault can take it, and else the protocol, with the protocol's own. */
  lemma FeePartsEffect(c: Config, q: map<Account, nat>, id: nat, split: FeeSplit, sinkOpen: bool)
    requires PayFeeParts(c, q, id, split, sinkOpen).Ok?
    ensures var paid := PayFeeParts(c, q, id, split, sinkOpen).value;
            && PartsPaid(q, paid.quote, id, paid.protocol, paid.treasury)
            && paid.protocol + paid.treasury == split.protocol + split.treasury
            && paid.treasury == (if sinkOpen && Lands(c, Bal(q, Vault), split.treasury) then split.treasury else 0)
  {
    var sink := SinkTakes(c, q, split.treasury, sinkOpen);
    var protocol := if sink then split.protocol else split.protocol + split.treasury;
    if protocol > 0 {
      PayEffect(c, q, Escrow(id), ProtocolTreasury, protocol);
      if sink {
        PayEffect(c, PayQuote(c, q, Escrow(id), ProtocolTreasury, protocol).value, Escrow(id), Vault, split.treasury);
      }
    } else if sink {
      PayEffect(c, q, Escrow(id), Vault, split.treasury);
    }
  }

  /** The split that is paid is the one above. */
  lemma SplitIsDivided(c: Config, q: map<Account, nat>, id: nat, curve: SplittableParams, fee: U128, sinkOpen: bool)
    requires PayFeeParts(c, q, id, SplitFee(fee, curve.protocolShareBps, curve.treasuryShareBps), sinkOpen).Ok?
    ensures var split := SplitFee(fee, curve.protocolShareBps, curve.treasuryShareBps);
            var paid := PayFeeParts(c, q, id, split, sinkOpen).value;
            Divided(c, curve, fee, sinkOpen, Bal(q, Vault)) == FeeSplit(paid.protocol, paid.treasury, split.creator)
  {
    FeePartsEffect(c, q, id, SplitFee(fee, curve.protocolShareBps, curve.treasuryShareBps), sinkOpen);
  }

  // ---- trades -----------------------------------------------------------------------

  /** A signer, or the treasury's vault buying through the venue; never an escrow. */
  predicate Trader(who: Account) {
    who.User? || who == Vault
  }

  /** `q'` is `q` after a buy: the buyer's extra to the protocol and charge to the escrow, and the fee parts out. */
  ghost predicate BuyPaid(q: map<Account, nat>, q': map<Account, nat>, who: Account, id: nat, extra: nat, used: nat,
                          protocol: nat, treasury: nat)
  {
    && (forall a :: Bal(q', a) == Bal(q, a) + Delta(a, who, ProtocolTreasury, extra)
                                  + Delta(a, who, Escrow(id), used)
                                  + Delta(a, Escrow(id), ProtocolTreasury, protocol)
                                  + Delta(a, Escrow(id), Vault, treasury))
    && Total(q') == Total(q)
  }

  /** What the vault holds when a buy's fee is paid. */
  function VaultAt(q: map<Account, nat>, who: Account, charged: nat): nat {
    if who == Vault then SatSub(Bal(q, Vault), charged) else Bal(q, Vault)
  }

  /** The record of a curve after a buy whose fee was divided into `parts`. */
  predicate BuyRecorded(s: CurveState, s': CurveState, b: Curve.BuyQuote, parts: FeeSplit, now: nat, isTrade: bool) {
    && s'.realQuote == s.realQuote + b.quoteNetUsed
    && s'.tokensRemaining + b.tokensOut == s.tokensRemaining
    && s'.creatorFees == Min(s.creatorFees + parts.creator, U128_MAX)
    && s'.protocolPaid == Min(s.protocolPaid + parts.protocol, U128_MAX)
    && s'.treasuryPaid == Min(s.treasuryPaid + parts.treasury, U128_MAX)
    && s'.lastTrade == (if isTrade then now else s.lastTrade)
    && s'.phase == (if s'.tokensRemaining == 0 then Complete else s.phase)
    && s'.completedAt == (if s'.tokensRemaining == 0 then Some(now) else s.completedAt)
    && s'.graduatedAt == s.graduatedAt && s'.lpShares == s.lpShares
  }

  lemma BuyIsRecorded(s: CurveState, b: Curve.BuyQuote, parts: FeeSplit, now: nat, isTrade: bool)
    requires s.realQuote + b.quoteNetUsed <= U128_MAX && b.tokensOut <= s.tokensRemaining
    ensures BuyRecorded(s, BuyRecord(s, b, parts.creator, parts.protocol, parts.treasury, now, isTrade), b, parts, now,
                        isTrade)
  {
  }

  /** A buy moves the charge from the buyer and the fee parts to their receivers, and exactly the tokens from the escrow
      to the buyer; no other balance moves. */
  lemma BuyMoneyEffect(c: Config, q: map<Account, nat>, t: map<(nat, Account), nat>, who: Account, id: nat,
                       b: Curve.BuyQuote, curve: SplittableParams, sinkOpen: bool)
    requires Trader(who)
    requires var split := SplitFee(b.fee, curve.protocolShareBps, curve.treasuryShareBps);
             BuyMoney(c, q, t, who, id, b, split, sinkOpen).Ok?
    ensures var split := SplitFee(b.fee, curve.protocolShareBps, curve.treasuryShareBps);
            var m := BuyMoney(c, q, t, who, id, b, split, sinkOpen).value;
            var parts := Divided(c, curve, b.fee, sinkOpen, VaultAt(q, who, b.quoteUsed));
            && BuyPaid(q, m.fees.quote, who, id, 0, b.quoteUsed, parts.protocol, parts.treasury)
            && Delivered(t, m.tokens, id, Escrow(id), who, b.tokensOut)
            && parts == FeeSplit(m.fees.protocol, m.fees.treasury, split.creator)
    ensures b.quoteUsed + c.existentialDeposit <= Bal(q, who)
  {
    var split := SplitFee(b.fee, curve.protocolShareBps, curve.treasuryShareBps);
    var q1 := PayQuote(c, q, who, Escrow(id), b.quoteUsed).value;
    PayEffect(c, q, who, Escrow(id), b.quoteUsed);
    assert Bal(q1, Vault) == VaultAt(q, who, b.quoteUsed);
    FeePartsEffect(c, q1, id, split, sinkOpen);
    SplitIsDivided(c, q1, id, curve, b.fee, sinkOpen);
    PayTokensEffect(t, id, Escrow(id), who, b.tokensOut);
  }

  lemma HookEffect(p: Pad, who: Account, extra: nat)
    requires Trader(who) && PayHook(p, who, extra).Ok?
    ensures var q := PayHook(p, who, extra).value;
            && (forall a :: Bal(q, a) == Bal(p.quote, a) + Delta(a, who, ProtocolTreasury, extra))
            && Total(q) == Total(p.quote)
    ensures extra <= Bal(p.quote, who)
  {
    if extra > 0 {
      PayEffect(p.config, p.quote, who, ProtocolTreasury, extra);
    }
  }

  /** What a buy is quoted at. */
  function BuyPrice(p: Pad, id: nat, toCurve: U128): Result<Curve.BuyQuote, Curve.MathError>
    requires id in p.launches && id in p.curves
  {
    Curve.QuoteBuy(TermsOf(p.config, p.launches[id].curve), CurveOf(p.curves[id]), toCurve)
  }

  /** `p'` is `p` after `who` bought at `b`, having paid `extra` to the hook: every balance and every record. */
  ghost predicate BoughtAt(p: Pad, p': Pad, who: Account, id: nat, b: Curve.BuyQuote, extra: nat, isTrade: bool,
                           sinkOpen: bool)
    requires id in p.launches && id in p.curves
  {
    var parts := Divided(p.config, p.launches[id].curve, b.fee, sinkOpen,
                         VaultAt(p.quote, who, extra + b.quoteUsed));
    && BuyPaid(p.quote, p'.quote, who, id, extra, b.quoteUsed, parts.protocol, parts.treasury)
    && Delivered(p.tokens, p'.tokens, id, Escrow(id), who, b.tokensOut)
    && id in p'.curves && BuyRecorded(p.curves[id], p'.curves[id], b, parts, p.now, isTrade)
    && p' == p.(curves := p.curves[id := p'.curves[id]], quote := p'.quote, tokens := p'.tokens)
  }

  lemma FillBuyEffect(p: Pad, who: Account, id: nat, b: Curve.BuyQuote, isTrade: bool, sinkOpen: bool)
    requires Trader(who) && id in p.launches && id in p.curves
    requires p.curves[id].realQuote + b.quoteNetUsed <= U128_MAX && b.tokensOut <= p.curves[id].tokensRemaining
    requires FillBuy(p, who, id, b, isTrade, sinkOpen).Ok?
    ensures var f := FillBuy(p, who, id, b, isTrade, sinkOpen).value;
            && BoughtAt(p, f.pad, who, id, b, 0, isTrade, sinkOpen)
            && f.tokensOut == b.tokensOut && f.quoteUsed == b.quoteUsed
            && f.crossed == (f.pad.curves[id].tokensRemaining == 0)
            && f.treasuryFee == Divided(p.config, p.launches[id].curve, b.fee, sinkOpen,
                                        VaultAt(p.quote, who, b.quoteUsed)).treasury
    ensures b.quoteUsed + p.config.existentialDeposit <= Bal(p.quote, who)
  {
    var curve := p.launches[id].curve;
    BuyMoneyEffect(p.config, p.quote, p.tokens, who, id, b, curve, sinkOpen);
    var parts := Divided(p.config, curve, b.fee, sinkOpen, VaultAt(p.quote, who, b.quoteUsed));
    BuyIsRecorded(p.curves[id], b, parts, p.now, isTrade);
  }

  /** A buy by way of the hook: what it pays there adds to what it pays on the curve. */
  lemma HookedBuy(p: Pad, q0: map<Account, nat>, p': Pad, who: Account, id: nat, b: Curve.BuyQuote, extra: nat,
                  isTrade: bool, sinkOpen: bool)
    requires id in p.launches && id in p.curves && Trader(who)
    requires forall a :: Bal(q0, a) == Bal(p.quote, a) + Delta(a, who, ProtocolTreasury, extra)
    requires Total(q0) == Total(p.quote) && b.quoteUsed <= Bal(q0, who)
    requires BoughtAt(p.(quote := q0), p', who, id, b, 0, isTrade, sinkOpen)
    ensures BoughtAt(p, p', who, id, b, extra, isTrade, sinkOpen)
    ensures VaultAt(p.quote, who, extra + b.quoteUsed) == VaultAt(q0, who, b.quoteUsed)
  {
    assert VaultAt(p.quote, who, extra + b.quoteUsed) == VaultAt(q0, who, b.quoteUsed);
  }

  /** What an accepted buy did, before any seed: the buyer paid the charge and the hook's extra and has exactly the
      quoted tokens, each receiver its part of the fee, and nobody else anything. */
  lemma BuyExactly(p: Pad, who: Account, id: nat, quoteIn: U128, min: nat, isTrade: bool, env: Env)
    requires Trader(who) && BuyBeforeSeed(p, who, id, quoteIn, min, isTrade, env).Ok?
    ensures id in p.launches && id in p.curves && p.curves[id].phase == Trading && env.hook.Some?
    ensures BuyPrice(p, id, env.hook.value.0).Ok?
    ensures var f := BuyBeforeSeed(p, who, id, quoteIn, min, isTrade, env).value;
            var b, extra := BuyPrice(p, id, env.hook.value.0).value, env.hook.value.1;
            && BoughtAt(p, f.pad, who, id, b, extra, isTrade, env.sinkOpen)
            && f.tokensOut == b.tokensOut >= min && f.quoteUsed == b.quoteUsed <= env.hook.value.0
            && f.crossed == (b.tokensOut == p.curves[id].tokensRemaining)
            && f.treasuryFee == Divided(p.config, p.launches[id].curve, b.fee, env.sinkOpen,
                                        VaultAt(p.quote, who, extra + b.quoteUsed)).treasury
  {
    BuyIsFill(p, who, id, quoteIn, min, isTrade, env);
    var b, extra := BuyPrice(p, id, env.hook.value.0).value, env.hook.value.1;
    FilledAt(p, PayHook(p, who, extra).value, who, id, b, extra, isTrade, env.sinkOpen);
  }

  /** A buy is its quote, carried out on what the hook leaves. */
  lemma BuyIsFill(p: Pad, who: Account, id: nat, quoteIn: U128, min: nat, isTrade: bool, env: Env)
    requires BuyBeforeSeed(p, who, id, quoteIn, min, isTrade, env).Ok?
    ensures id in p.launches && id in p.curves && p.curves[id].phase == Trading && env.hook.Some?
    ensures BuyPrice(p, id, env.hook.value.0).Ok? && PayHook(p, who, env.hook.value.1).Ok?
    ensures var b := BuyPrice(p, id, env.hook.value.0).value;
            && p.curves[id].realQuote + b.quoteNetUsed <= U128_MAX && b.tokensOut <= p.curves[id].tokensRemaining
            && min <= b.tokensOut && b.quoteUsed <= env.hook.value.0
            && BuyBeforeSeed(p, who, id, quoteIn, min, isTrade, env)
               == FillBuy(p.(quote := PayHook(p, who, env.hook.value.1).value), who, id, b, isTrade, env.sinkOpen)
  {
    CurveHistory.BuyFits(TermsOf(p.config, p.launches[id].curve), CurveOf(p.curves[id]), env.hook.value.0);
  }

  lemma FilledAt(p: Pad, q0: map<Account, nat>, who: Account, id: nat, b: Curve.BuyQuote, extra: nat, isTrade: bool,
                 sinkOpen: bool)
    requires Trader(who) && id in p.launches && id in p.curves && PayHook(p, who, extra) == Ok(q0)
    requires p.curves[id].realQuote + b.quoteNetUsed <= U128_MAX && b.tokensOut <= p.curves[id].tokensRemaining
    requires FillBuy(p.(quote := q0), who, id, b, isTrade, sinkOpen).Ok?
    ensures var f := FillBuy(p.(quote := q0), who, id, b, isTrade, sinkOpen).value;
            && BoughtAt(p, f.pad, who, id, b, extra, isTrade, sinkOpen)
            && f.tokensOut == b.tokensOut && f.quoteUsed == b.quoteUsed
            && f.crossed == (b.tokensOut == p.curves[id].tokensRemaining)
            && f.treasuryFee == Divided(p.config, p.launches[id].curve, b.fee, sinkOpen,
                                        VaultAt(p.quote, who, extra + b.quoteUsed)).treasury
  {
    HookEffect(p, who, extra);
    FillBuyEffect(p.(quote := q0), who, id, b, isTrade, sinkOpen);
    HookedBuy(p, q0, FillBuy(p.(quote := q0), who, id, b, isTrade, sinkOpen).value.pad, who, id, b, extra, isTrade,
              sinkOpen);
  }

  /** `q'` is `q` after a sell: the fee parts and the proceeds out of the escrow. */
  ghost predicate SellPaid(q: map<Account, nat>, q': map<Account, nat>, who: Account, id: nat, protocol: nat,
                           treasury: nat, proceeds: nat)
  {
    && (forall a :: Bal(q', a) == Bal(q, a) + Delta(a, Escrow(id), ProtocolTreasury, protocol)
                                  + Delta(a, Escrow(id), Vault, treasury)
                                  + Delta(a, Escrow(id), who, proceeds))
    && Total(q') == Total(q)
  }

  /** A sell moves exactly the tokens from the seller to the escrow, and out of it the proceeds to the seller and the
      fee parts to their receivers; no other balance moves. */
  lemma SellMoneyEffect(c: Config, q: map<Account, nat>, t: map<(nat, Account), nat>, who: Account, id: nat,
                        tokensIn: nat, x: Curve.SellQuote, curve: SplittableParams, sinkOpen: bool)
    requires Trader(who)
    requires SellMoney(c, q, t, who, id, tokensIn, x, SplitFee(x.fee, curve.protocolShareBps, curve.treasuryShareBps),
                       sinkOpen).Ok?
    ensures var split := SplitFee(x.fee, curve.protocolShareBps, curve.treasuryShareBps);
            var m := SellMoney(c, q, t, who, id, tokensIn, x, split, sinkOpen).value;
            var parts := Divided(c, curve, x.fee, sinkOpen, Bal(q, Vault));
            && SellPaid(q, m.fees.quote, who, id, parts.protocol, parts.treasury, x.quoteOut)
            && Delivered(t, m.tokens, id, who, Escrow(id), tokensIn)
            && parts == FeeSplit(m.fees.protocol, m.fees.treasury, split.creator)
  {
    var split := SplitFee(x.fee, curve.protocolShareBps, curve.treasuryShareBps);
    PayTokensEffect(t, id, who, Escrow(id), tokensIn);
    FeePartsEffect(c, q, id, split, sinkOpen);
    SplitIsDivided(c, q, id, curve, x.fee, sinkOpen);
    PayEffect(c, PayFeeParts(c, q, id, split, sinkOpen).value.quote, Escrow(id), who, x.quoteOut);
  }

  /** The record of a curve after a sell whose fee was divided into `parts`. */
  predicate SellRecorded(s: CurveState, s': CurveState, tokensIn: nat, x: Curve.SellQuote, parts: FeeSplit, now: nat) {
    && s'.realQuote + x.quoteGross == s.realQuote
    && s'.tokensRemaining == s.tokensRemaining + tokensIn
    && s'.creatorFees == Min(s.creatorFees + parts.creator, U128_MAX)
    && s'.protocolPaid == Min(s.protocolPaid + parts.protocol, U128_MAX)
    && s'.treasuryPaid == Min(s.treasuryPaid + parts.treasury, U128_MAX)
    && s'.lastTrade == now && s'.phase == s.phase && s'.completedAt == s.completedAt
    && s'.graduatedAt == s.graduatedAt && s'.lpShares == s.lpShares
  }

  function SellPrice(p: Pad, id: nat, tokensIn: U128): Result<Curve.SellQuote, Curve.MathError>
    requires id in p.launches && id in p.curves
  {
    Curve.QuoteSell(TermsOf(p.config, p.launches[id].curve), CurveOf(p.curves[id]), tokensIn)
  }

  /** `p'` is `p` after `who` sold `tokensIn` at `x`: every balance and every record. */
  ghost predicate SoldAt(p: Pad, p': Pad, who: Account, id: nat, tokensIn: nat, x: Curve.SellQuote, sinkOpen: bool)
    requires id in p.launches && id in p.curves
  {
    var parts := Divided(p.config, p.launches[id].curve, x.fee, sinkOpen, Bal(p.quote, Vault));
    && SellPaid(p.quote, p'.quote, who, id, parts.protocol, parts.treasury, x.quoteOut)
    && Delivered(p.tokens, p'.tokens, id, who, Escrow(id), tokensIn)
    && id in p'.curves && SellRecorded(p.curves[id], p'.curves[id], tokensIn, x, parts, p.now)
    && p' == p.(curves := p.curves[id := p'.curves[id]], quote := p'.quote, tokens := p'.tokens)
  }

  lemma FillSellEffect(p: Pad, who: Account, id: nat, tokensIn: U128, x: Curve.SellQuote, sinkOpen: bool)
    requires Trader(who) && id in p.launches && id in p.curves
    requires x.quoteGross <= p.curves[id].realQuote && p.curves[id].tokensRemaining + tokensIn <= U128_MAX
    requires FillSell(p, who, id, tokensIn, x, sinkOpen).Ok?
    ensures var f := FillSell(p, who, id, tokensIn, x, sinkOpen).value;
            && SoldAt(p, f.pad, who, id, tokensIn, x, sinkOpen) && f.traded == x.quoteGross
            && f.treasuryFee
               == Divided(p.config, p.launches[id].curve, x.fee, sinkOpen, Bal(p.quote, Vault)).treasury
  {
    SellMoneyEffect(p.config, p.quote, p.tokens, who, id, tokensIn, x, p.launches[id].curve, sinkOpen);
  }

  /** What an accepted sell did: the seller parted with exactly the tokens and has exactly the quoted proceeds, each
      receiver its part of the fee, and nobody else anything. */
  lemma SellExactly(p: Pad, who: Account, id: nat, tokensIn: U128, min: nat, env: Env)
    requires Trader(who) && Sell(p, who, id, tokensIn, min, env).Ok?
    ensures id in p.launches && id in p.curves && p.curves[id].phase == Trading
    ensures tokensIn + p.curves[id].tokensRemaining <= p.config.sellable && SellPrice(p, id, tokensIn).Ok?
    ensures var f, x := Sell(p, who, id, tokensIn, min, env).value, SellPrice(p, id, tokensIn).value;
            && SoldAt(p, f.pad, who, id, tokensIn, x, env.sinkOpen)
            && f.traded == x.quoteGross == x.quoteOut + x.fee && x.quoteOut >= min
            && f.treasuryFee
               == Divided(p.config, p.launches[id].curve, x.fee, env.sinkOpen, Bal(p.quote, Vault)).treasury
  {
    CurveHistory.SellFits(TermsOf(p.config, p.launches[id].curve), CurveOf(p.curves[id]), tokensIn);
    FillSellEffect(p, who, id, tokensIn, SellPrice(p, id, tokensIn).value, env.sinkOpen);
  }

  // ---- graduation ---------------------------------------------------------------------

  /** `q'` is `q` after one payment. */
  ghost predicate PaidOnce(q: map<Account, nat>, q': map<Account, nat>, from: Account, to: Account, amount: nat) {
    && (forall a :: Bal(q', a) == Bal(q, a) + Delta(a, from, to, amount))
    && Total(q') == Total(q)
  }

  /** The record of a curve that gave all it had to its pool. */
  predicate GraduatedWith(s: CurveState, s': CurveState, shares: nat, now: nat) {
    s' == s.(realQuote := 0, lpShares := shares, phase := Graduated, graduatedAt := Some(now))
  }

  /** What a seed did: the pool has all the quote the curve raised, with what its own minimum took, and exactly the
      tokens held back for it, out of the escrow; no other balance moves. */
  lemma SeedExactly(p: Pad, id: nat, seeding: Seeding)
    requires Seed(p, id, seeding).Ok?
    ensures id in p.curves && p.curves[id].phase == Complete && seeding.Seeded? && 0 < seeding.shares
    ensures var p', s := Seed(p, id, seeding).value, p.curves[id];
            && PaidOnce(p.quote, p'.quote, Escrow(id), Pool(id), s.realQuote + seeding.endowment)
            && Delivered(p.tokens, p'.tokens, id, Escrow(id), Pool(id), SatSub(p.config.totalSupply, p.config.sellable))
            && id in p'.curves && GraduatedWith(s, p'.curves[id], seeding.shares, p.now)
            && p' == p.(curves := p.curves[id := p'.curves[id]], quote := p'.quote, tokens := p'.tokens)
  {
    MoveConserves(p.quote, Escrow(id), Pool(id), p.curves[id].realQuote + seeding.endowment);
    MoveConserves(p.tokens, (id, Escrow(id)), (id, Pool(id)), p.config.Reserved());
  }

  /** Funds of a rescue: what the pool took, and the rest of both deposits to the protocol. */
  lemma RescueMoneyEffect(p: Pad, id: nat, quote: nat, tokens: nat, took: Taken)
    requires took.quote <= quote && took.quote <= Bal(p.quote, Escrow(id))
    requires took.tokens <= tokens <= Bal(p.tokens, (id, Escrow(id)))
    requires RescueMoney(p, id, quote, tokens, took).Ok?
    ensures var (q', t') := RescueMoney(p, id, quote, tokens, took).value;
            RescuedQuote(p.quote, q', id, quote, took.quote) && RescuedTokens(p.tokens, t', id, tokens, took.tokens)
  {
    RescueQuote(p.config, p.quote, id, quote, took.quote);
    RescueTokens(p.tokens, id, tokens, took.tokens);
  }

  /** What a rescue moved of one ledger, in quote or, for one launch, in tokens. */
  ghost predicate RescuedQuote(q: map<Account, nat>, q': map<Account, nat>, id: nat, quote: nat, took: nat)
    requires took <= quote
  {
    && (forall a :: Bal(q', a) == Bal(q, a) + Delta(a, Escrow(id), Pool(id), took)
                                  + Delta(a, Escrow(id), ProtocolTreasury, quote - took))
    && Total(q') == Total(q)
  }

  ghost predicate RescuedTokens(t: map<(nat, Account), nat>, t': map<(nat, Account), nat>, id: nat, tokens: nat,
                                took: nat)
    requires took <= tokens
  {
    && (forall i, a :: Bal(t', (i, a)) == Bal(t, (i, a))
                         + (if i == id then Delta(a, Escrow(id), Pool(id), took)
                                            + Delta(a, Escrow(id), ProtocolTreasury, tokens - took)
                            else 0))
    && Total(t') == Total(t)
  }

  lemma RescueQuote(c: Config, q: map<Account, nat>, id: nat, quote: nat, took: nat)
    requires took <= quote && took <= Bal(q, Escrow(id))
    ensures var q1 := Move(q, Escrow(id), Pool(id), took);
            var q2 := if quote > took then PayQuote(c, q1, Escrow(id), ProtocolTreasury, quote - took) else Ok(q1);
            q2.Ok? ==> RescuedQuote(q, q2.value, id, quote, took)
  {
    MoveConserves(q, Escrow(id), Pool(id), took);
    var q1 := Move(q, Escrow(id), Pool(id), took);
    if quote > took && PayQuote(c, q1, Escrow(id), ProtocolTreasury, quote - took).Ok? {
      PayEffect(c, q1, Escrow(id), ProtocolTreasury, quote - took);
    }
  }

  lemma RescueTokens(t: map<(nat, Account), nat>, id: nat, tokens: nat, took: nat)
    requires took <= tokens <= Bal(t, (id, Escrow(id)))
    ensures var t1 := Move(t, (id, Escrow(id)), (id, Pool(id)), took);
            var t2 := if tokens > took then PayTokens(t1, id, Escrow(id), ProtocolTreasury, tokens - took) else Ok(t1);
            t2.Ok? ==> RescuedTokens(t, t2.value, id, tokens, took)
  {
    MoveConserves(t, (id, Escrow(id)), (id, Pool(id)), took);
    var t1 := Move(t, (id, Escrow(id)), (id, Pool(id)), took);
    if tokens > took && PayTokens(t1, id, Escrow(id), ProtocolTreasury, tokens - took).Ok? {
      PayTokensEffect(t1, id, Escrow(id), ProtocolTreasury, tokens - took);
    }
  }

  /** What a rescue did: the pool has what it took and the protocol the rest, both out of the escrow; no other balance
      moves. */
  lemma RescueExactly(p: Pad, id: nat, dev: nat, poolExists: bool, took: Option<Taken>)
    requires ForceSeed(p, id, dev, poolExists, took).Ok?
    ensures id in p.curves && p.curves[id].phase == Complete && took.Some? && 0 < took.value.shares
    ensures var p', s := ForceSeed(p, id, dev, poolExists, took).value, p.curves[id];
            var reserved := SatSub(p.config.totalSupply, p.config.sellable);
            && took.value.quote <= s.realQuote && took.value.tokens <= reserved
            && RescuedQuote(p.quote, p'.quote, id, s.realQuote, took.value.quote)
            && RescuedTokens(p.tokens, p'.tokens, id, reserved, took.value.tokens)
            && id in p'.curves && GraduatedWith(s, p'.curves[id], took.value.shares, p.now)
            && p' == p.(curves := p.curves[id := p'.curves[id]], quote := p'.quote, tokens := p'.tokens)
  {
    RescueMoneyEffect(p, id, p.curves[id].realQuote, p.config.Reserved(), took.value);
  }

  // ---- creator fees and creation ----------------------------------------------------------

  /** What a claim did: the recipient has exactly the fees kept for the creator, out of the escrow. */
  lemma ClaimExactly(p: Pad, who: Account, id: nat)
    requires ClaimCreatorFees(p, who, id).Ok?
    ensures id in p.launches && id in p.curves && p.launches[id].feeRecipient == who && 0 < p.curves[id].creatorFees
    ensures var p', s := ClaimCreatorFees(p, who, id).value, p.curves[id];
            && PaidOnce(p.quote, p'.quote, Escrow(id), who, s.creatorFees)
            && p' == p.(curves := p.curves[id := s.(creatorFees := 0)], quote := p'.quote)
  {
    PayEffect(p.config, p.quote, Escrow(id), who, p.curves[id].creatorFees);
  }

  /** `q'` is `q` after a launch was paid for: the fee to its escrow, of which the deposits are set aside and all but
      two minimums go on to the protocol. */
  ghost predicate Opened(c: Config, q: map<Account, nat>, q': map<Account, nat>, creator: Account, id: nat, fee: nat) {
    && (forall a :: Bal(q', a) == Bal(q, a) + Delta(a, creator, Escrow(id), fee)
                                  + Delta(a, Escrow(id), Deposits(id), c.assetDeposits)
                                  + Delta(a, Escrow(id), ProtocolTreasury, Spare(c, q, id, fee)))
    && Total(q') == Total(q)
  }

  /** What the creation fee leaves beside the deposits and two minimums, with whatever the escrow already held. */
  function Spare(c: Config, q: map<Account, nat>, id: nat, fee: nat): nat {
    SatSub(Bal(q, Escrow(id)) + fee, c.assetDeposits + 2 * c.existentialDeposit)
  }

  lemma OpenMoneyEffect(c: Config, q: map<Account, nat>, creator: Account, id: nat, fee: nat)
    requires creator.User? && OpenMoney(c, q, creator, id, fee).Ok?
    ensures Opened(c, q, OpenMoney(c, q, creator, id, fee).value, creator, id, fee)
  {
    PayEffect(c, q, creator, Escrow(id), fee);
    var q1 := PayQuote(c, q, creator, Escrow(id), fee).value;
    MoveConserves(q1, Escrow(id), Deposits(id), c.assetDeposits);
    var q2 := Move(q1, Escrow(id), Deposits(id), c.assetDeposits);
    var spare := SatSub(SatSub(Bal(q2, Escrow(id)), c.existentialDeposit), c.existentialDeposit);
    if spare > 0 {
      PayEffect(c, q2, Escrow(id), ProtocolTreasury, spare);
    }
    OpenedInThree(c, q, q1, q2, OpenMoney(c, q, creator, id, fee).value, creator, id, fee, spare);
  }

  lemma OpenedInThree(c: Config, q: map<Account, nat>, q1: map<Account, nat>, q2: map<Account, nat>,
                      q': map<Account, nat>, creator: Account, id: nat, fee: nat, spare: nat)
    requires creator.User? && PaidOnce(q, q1, creator, Escrow(id), fee)
    requires PaidOnce(q1, q2, Escrow(id), Deposits(id), c.assetDeposits)
    requires PaidOnce(q2, q', Escrow(id), ProtocolTreasury, spare)
    requires spare == SatSub(SatSub(Bal(q2, Escrow(id)), c.existentialDeposit), c.existentialDeposit)
    ensures Opened(c, q, q', creator, id, fee)
  {
    assert spare == Spare(c, q, id, fee);
  }

  /** The terms a launch trades on are the settings of its creation, whatever is set later. */
  predicate Snapped(params: LaunchParams, curve: CurveParams) {
    && curve.graduationTarget == params.graduationTarget
    && 3 * curve.virtualQuote <= params.graduationTarget < 3 * curve.virtualQuote + 3
    && curve.curveFeeBps == params.curveFeeBps && curve.protocolShareBps == params.protocolShareBps
    && curve.treasuryShareBps == params.treasuryShareBps && curve.poolFeeTier == params.poolFeeTier
  }

  /** A launch as it starts: the whole supply in its escrow, all that is for sale on its curve, nothing raised. */
  ghost predicate Launched(p: Pad, p': Pad, creator: Account, recipient: Option<Account>) {
    var id := p.nextId;
    && Opened(p.config, p.quote, p'.quote, creator, id, p.params.creationFee)
    && p'.tokens == p.tokens[(id, Escrow(id)) := p.config.totalSupply]
    && id in p'.launches && id in p'.curves && p'.nextId == id + 1
    && p' == p.(nextId := id + 1, launches := p.launches[id := p'.launches[id]],
                curves := p.curves[id := p'.curves[id]], quote := p'.quote, tokens := p'.tokens)
    && Snapped(p.params, p'.launches[id].curve) && p'.launches[id].creator == creator
    && p'.launches[id].feeRecipient == (if recipient.Some? then recipient.value else creator)
    && p'.launches[id].createdAt == p.now
    && p'.curves[id] == CurveState(Trading, 0, p.config.sellable, 0, 0, 0, p.now, None, None, 0)
  }

  lemma OpenExactly(p: Pad, creator: Account, recipient: Option<Account>, poolExists: bool)
    requires creator.User? && Open(p, creator, recipient, poolExists).Ok?
    ensures !p.paused && !poolExists && Launched(p, Open(p, creator, recipient, poolExists).value, creator, recipient)
  {
    OpenMoneyEffect(p.config, p.quote, creator, p.nextId, p.params.creationFee);
    FloorBounds(p.params.graduationTarget, 3);
  }
}
