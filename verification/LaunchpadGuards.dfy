/** Exactly when each launchpad call goes through, on what a caller can read beforehand; and what a whole buy or
    creation then brings. */
module LaunchpadGuards {
  import opened Arith
  import opened Results
  import opened Ledger
  import opened LaunchTerms
  import opened LaunchpadSpec
  import opened LaunchpadEffects
  import opened LaunchpadRuns
  import Curve
  import CurveHistory

  // ---- payments -----------------------------------------------------------------------

  lemma PayIff(c: Config, q: map<Account, nat>, from: Account, to: Account, amount: nat)
    ensures PayQuote(c, q, from, to, amount).Ok? <==>
            amount + c.existentialDeposit <= Bal(q, from) && Lands(c, Bal(q, to), amount)
  {
  }

  /** Fee parts an escrow can cover are paid exactly when the protocol can take its own. */
  lemma FeePartsIff(c: Config, q: map<Account, nat>, id: nat, curve: SplittableParams, fee: U128, sinkOpen: bool)
    requires fee + c.existentialDeposit <= Bal(q, Escrow(id))
    ensures PayFeeParts(c, q, id, SplitFee(fee, curve.protocolShareBps, curve.treasuryShareBps), sinkOpen).Ok? <==>
            Lands(c, Bal(q, ProtocolTreasury), Divided(c, curve, fee, sinkOpen, Bal(q, Vault)).protocol)
  {
    var split := SplitFee(fee, curve.protocolShareBps, curve.treasuryShareBps);
    var parts := Divided(c, curve, fee, sinkOpen, Bal(q, Vault));
    var sink := SinkTakes(c, q, split.treasury, sinkOpen);
    assert parts.protocol == if sink then split.protocol else split.protocol + split.treasury;
    PayIff(c, q, Escrow(id), ProtocolTreasury, parts.protocol);
    var q1 := if parts.protocol > 0 then PayQuote(c, q, Escrow(id), ProtocolTreasury, parts.protocol) else Ok(q);
    if q1.Ok? && sink {
      if parts.protocol > 0 {
        PayEffect(c, q, Escrow(id), ProtocolTreasury, parts.protocol);
      }
      PayIff(c, q1.value, Escrow(id), Vault, parts.treasury);
    }
  }

  /** A token payment lands when it is covered and fits its receiver's account. */
  lemma PayTokensIff(t: map<(nat, Account), nat>, id: nat, from: Account, to: Account, amount: nat)
    requires 0 < amount
    ensures PayTokens(t, id, from, to, amount).Ok? <==>
            amount <= Bal(t, (id, from)) && Bal(t, (id, to)) + amount <= U128_MAX
  {
  }

  // ---- buys ---------------------------------------------------------------------------

  /** The payments of a priced buy go through. */
  predicate BuyIsPaid(p: Pad, who: Account, id: nat, b: Curve.BuyQuote, extra: nat, sinkOpen: bool)
    requires id in p.launches
  {
    var c, protocolHolds := p.config, Bal(p.quote, ProtocolTreasury);
    var parts := Divided(c, p.launches[id].curve, b.fee, sinkOpen, VaultAt(p.quote, who, extra + b.quoteUsed));
    && extra + b.quoteUsed + c.existentialDeposit <= Bal(p.quote, who)
    && Lands(c, protocolHolds, extra) && Lands(c, protocolHolds + extra, parts.protocol)
    && Bal(p.tokens, (id, who)) + b.tokensOut <= U128_MAX
  }

  lemma BuyMoneyIff(p: Pad, q: map<Account, nat>, who: Account, id: nat, b: Curve.BuyQuote, sinkOpen: bool)
    requires Trader(who) && id in p.launches && Total(q) <= U128_MAX
    requires p.config.existentialDeposit <= Bal(q, Escrow(id)) && b.fee <= b.quoteUsed
    requires 0 < b.tokensOut <= Bal(p.tokens, (id, Escrow(id)))
    ensures var split := SplitFee(b.fee, p.launches[id].curve.protocolShareBps, p.launches[id].curve.treasuryShareBps);
            BuyMoney(p.config, q, p.tokens, who, id, b, split, sinkOpen).Ok? <==>
            BuyIsPaid(p.(quote := q), who, id, b, 0, sinkOpen)
  {
    var c, curve := p.config, p.launches[id].curve;
    PayIff(c, q, who, Escrow(id), b.quoteUsed);
    TwoWithinTotal(q, who, Escrow(id));
    var q1 := PayQuote(c, q, who, Escrow(id), b.quoteUsed);
    if q1.Ok? {
      PayEffect(c, q, who, Escrow(id), b.quoteUsed);
      assert Bal(q1.value, Vault) == VaultAt(q, who, b.quoteUsed);
      FeePartsIff(c, q1.value, id, curve, b.fee, sinkOpen);
      PayTokensIff(p.tokens, id, Escrow(id), who, b.tokensOut);
    }
  }

  lemma HookIff(p: Pad, who: Account, extra: nat)
    ensures PayHook(p, who, extra).Ok? <==>
            extra == 0 || (&& extra + p.config.existentialDeposit <= Bal(p.quote, who)
                           && Lands(p.config, Bal(p.quote, ProtocolTreasury), extra))
  {
    PayIff(p.config, p.quote, who, ProtocolTreasury, extra);
  }

  /** A buy that goes through: an open curve, an offer the hook lets by and the curve can price, tokens enough for the
      buyer, and every payment good. */
  predicate Buyable(p: Pad, who: Account, id: nat, quoteIn: nat, min: nat, env: Env) {
    && id in p.launches && id in p.curves && p.curves[id].phase == Trading && 0 < quoteIn && env.hook.Some?
    && var (toCurve, extra) := env.hook.value;
       var price := BuyPrice(p, id, toCurve);
       price.Ok? && min <= price.value.tokensOut && BuyIsPaid(p, who, id, price.value, extra, env.sinkOpen)
  }

  lemma BuyIff(p: Pad, who: Account, id: nat, quoteIn: U128, min: nat, isTrade: bool, env: Env)
    requires Inv(p) && Trader(who) && Total(p.quote) <= U128_MAX
    ensures BuyBeforeSeed(p, who, id, quoteIn, min, isTrade, env).Ok? <==> Buyable(p, who, id, quoteIn, min, env)
    ensures Buy(p, who, id, quoteIn, min, isTrade, env).Ok? <==> Buyable(p, who, id, quoteIn, min, env)
  {
    if id in p.launches && id in p.curves && p.curves[id].phase == Trading && 0 < quoteIn && env.hook.Some? {
      assert LaunchOk(p, id);
      var (toCurve, extra) := env.hook.value;
      HookIff(p, who, extra);
      if PayHook(p, who, extra).Ok? {
        HookEffect(p, who, extra);
        PricedBuyIff(p, PayHook(p, who, extra).value, who, id, min, isTrade, toCurve, extra, env.sinkOpen);
      }
    }
  }

  /** A buy past its hook. */
  lemma PricedBuyIff(p: Pad, q0: map<Account, nat>, who: Account, id: nat, min: nat, isTrade: bool, toCurve: U128,
                     extra: nat, sinkOpen: bool)
    requires LaunchOk(p, id) && p.curves[id].phase == Trading && Trader(who) && Total(p.quote) <= U128_MAX
    requires forall a :: Bal(q0, a) == Bal(p.quote, a) + Delta(a, who, ProtocolTreasury, extra)
    requires Total(q0) == Total(p.quote) && Lands(p.config, Bal(p.quote, ProtocolTreasury), extra)
    ensures var price := BuyPrice(p, id, toCurve);
            && (price.Ok? ==> && p.curves[id].realQuote + price.value.quoteNetUsed <= U128_MAX
                              && price.value.tokensOut <= p.curves[id].tokensRemaining)
            && (price.Ok? ==>
                  (FillBuy(p.(quote := q0), who, id, price.value, isTrade, sinkOpen).Ok? <==>
                   BuyIsPaid(p, who, id, price.value, extra, sinkOpen)))
  {
    var price := BuyPrice(p, id, toCurve);
    if price.Ok? {
      CurveHistory.BuyFits(TermsOf(p.config, p.launches[id].curve), CurveOf(p.curves[id]), toCurve);
      BuyMoneyIff(p, q0, who, id, price.value, sinkOpen);
      PaidPastHook(p, q0, who, id, price.value, extra, sinkOpen);
    }
  }

  lemma PaidPastHook(p: Pad, q0: map<Account, nat>, who: Account, id: nat, b: Curve.BuyQuote, extra: nat,
                     sinkOpen: bool)
    requires Trader(who) && id in p.launches && Lands(p.config, Bal(p.quote, ProtocolTreasury), extra)
    requires forall a :: Bal(q0, a) == Bal(p.quote, a) + Delta(a, who, ProtocolTreasury, extra)
    ensures BuyIsPaid(p.(quote := q0), who, id, b, 0, sinkOpen) <==> BuyIsPaid(p, who, id, b, extra, sinkOpen)
  {
    assert Bal(q0, who) == Bal(p.quote, who) - extra;
    assert Bal(q0, ProtocolTreasury) == Bal(p.quote, ProtocolTreasury) + extra;
    if b.quoteUsed + p.config.existentialDeposit <= Bal(q0, who) {
      assert VaultAt(p.quote, who, extra + b.quoteUsed) == VaultAt(q0, who, b.quoteUsed);
    }
  }

  // ---- sells --------------------------------------------------------------------------

  /** The payments of a priced sell go through. */
  predicate SellIsPaid(p: Pad, who: Account, id: nat, tokensIn: nat, x: Curve.SellQuote, sinkOpen: bool)
    requires id in p.launches
  {
    var c := p.config;
    && tokensIn <= Bal(p.tokens, (id, who)) && Bal(p.tokens, (id, Escrow(id))) + tokensIn <= U128_MAX
    && Lands(c, Bal(p.quote, ProtocolTreasury),
             Divided(c, p.launches[id].curve, x.fee, sinkOpen, Bal(p.quote, Vault)).protocol)
    && Lands(c, Bal(p.quote, who), x.quoteOut)
  }

  /** A sell that goes through: an open curve, no more tokens than were sold, proceeds enough for the seller, and every
      payment good. */
  predicate Sellable(p: Pad, who: Account, id: nat, tokensIn: U128, min: nat, sinkOpen: bool) {
    && id in p.launches && id in p.curves && p.curves[id].phase == Trading
    && 0 < tokensIn <= SatSub(p.config.sellable, p.curves[id].tokensRemaining)
    && var price := SellPrice(p, id, tokensIn);
       price.Ok? && min <= price.value.quoteOut && SellIsPaid(p, who, id, tokensIn, price.value, sinkOpen)
  }

  lemma SellIff(p: Pad, who: Account, id: nat, tokensIn: U128, min: nat, env: Env)
    requires Inv(p) && who.User?
    ensures Sell(p, who, id, tokensIn, min, env).Ok? <==> Sellable(p, who, id, tokensIn, min, env.sinkOpen)
  {
    if && id in p.launches && id in p.curves && p.curves[id].phase == Trading
       && 0 < tokensIn <= SatSub(p.config.sellable, p.curves[id].tokensRemaining) {
      assert LaunchOk(p, id);
      var price := SellPrice(p, id, tokensIn);
      if price.Ok? {
        CurveHistory.SellFits(TermsOf(p.config, p.launches[id].curve), CurveOf(p.curves[id]), tokensIn);
        SellMoneyIff(p, who, id, tokensIn, price.value, env.sinkOpen);
      }
    }
  }

  lemma SellMoneyIff(p: Pad, who: Account, id: nat, tokensIn: U128, x: Curve.SellQuote, sinkOpen: bool)
    requires who.User? && id in p.launches && 0 < tokensIn
    requires x.quoteOut + x.fee + p.config.existentialDeposit <= Bal(p.quote, Escrow(id))
    ensures var curve := p.launches[id].curve;
            SellMoney(p.config, p.quote, p.tokens, who, id, tokensIn, x,
                      SplitFee(x.fee, curve.protocolShareBps, curve.treasuryShareBps), sinkOpen).Ok? <==>
            SellIsPaid(p, who, id, tokensIn, x, sinkOpen)
  {
    var c, curve := p.config, p.launches[id].curve;
    PayTokensIff(p.tokens, id, who, Escrow(id), tokensIn);
    FeePartsIff(c, p.quote, id, curve, x.fee, sinkOpen);
    var paid := PayFeeParts(c, p.quote, id, SplitFee(x.fee, curve.protocolShareBps, curve.treasuryShareBps), sinkOpen);
    if paid.Ok? {
      FeePartsEffect(c, p.quote, id, SplitFee(x.fee, curve.protocolShareBps, curve.treasuryShareBps), sinkOpen);
      PayIff(c, paid.value.quote, Escrow(id), who, x.quoteOut);
    }
  }

  // ---- graduation and rescue --------------------------------------------------------------

  /** A pool that takes the seed, and the one minimum of its own at most. */
  predicate PoolTakes(c: Config, seeding: Seeding) {
    seeding.Seeded? && 0 < seeding.shares && seeding.endowment <= c.existentialDeposit
  }

  /** A complete launch can always be seeded: only the pool can refuse. */
  lemma SeedIff(p: Pad, id: nat, seeding: Seeding)
    requires Inv(p)
    ensures Seed(p, id, seeding).Ok? <==>
            id in p.curves && p.curves[id].phase == Complete && PoolTakes(p.config, seeding)
  {
    if id in p.curves {
      assert LaunchOk(p, id);
    }
  }

  /** What a rescue accepts of what a pool took of an amount. */
  predicate Tolerated(took: nat, amount: U128, deviationBps: nat)
    requires deviationBps <= 10_000
  {
    Min(amount * (10_000 - deviationBps), U128_MAX) / 10_000 <= took <= amount
  }

  /** A rescue goes through exactly for a complete launch whose time has come, into a pool that exists and took both
      amounts within the deviation for a share, when the protocol can take the rest. */
  lemma RescueIff(p: Pad, id: nat, dev: nat, poolExists: bool, took: Option<Taken>)
    requires Inv(p)
    ensures ForceSeed(p, id, dev, poolExists, took).Ok? <==>
            && dev <= 10_000 && id in p.curves && p.curves[id].phase == Complete && p.curves[id].completedAt.Some?
            && p.curves[id].completedAt.value + p.config.rescueDelay <= p.now && poolExists && took.Some?
            && var x, raised, reserved := took.value, p.curves[id].realQuote, p.config.Reserved();
               && 0 < x.shares && Tolerated(x.quote, raised, dev) && Tolerated(x.tokens, reserved, dev)
               && Lands(p.config, Bal(p.quote, ProtocolTreasury), raised - x.quote)
               && (x.tokens < reserved ==> Bal(p.tokens, (id, ProtocolTreasury)) + reserved - x.tokens <= U128_MAX)
  {
    if id in p.curves && p.curves[id].phase == Complete && took.Some? && dev <= 10_000 {
      assert LaunchOk(p, id);
      var x, raised, reserved := took.value, p.curves[id].realQuote, p.config.Reserved();
      if x.quote <= raised && x.tokens <= reserved {
        RescueMoneyIff(p, id, raised, reserved, x);
      }
    }
  }

  lemma RescueMoneyIff(p: Pad, id: nat, quote: nat, tokens: nat, took: Taken)
    requires took.quote <= quote && quote + p.config.existentialDeposit <= Bal(p.quote, Escrow(id))
    requires took.tokens <= tokens <= Bal(p.tokens, (id, Escrow(id)))
    ensures RescueMoney(p, id, quote, tokens, took).Ok? <==>
            && Lands(p.config, Bal(p.quote, ProtocolTreasury), quote - took.quote)
            && (took.tokens < tokens ==> Bal(p.tokens, (id, ProtocolTreasury)) + tokens - took.tokens <= U128_MAX)
  {
    PayIff(p.config, Move(p.quote, Escrow(id), Pool(id), took.quote), Escrow(id), ProtocolTreasury, quote - took.quote);
    if took.tokens < tokens {
      PayTokensIff(Move(p.tokens, (id, Escrow(id)), (id, Pool(id)), took.tokens), id, Escrow(id), ProtocolTreasury,
                   tokens - took.tokens);
    }
  }

  // ---- a whole buy, a whole creation ----------------------------------------------------------

  /** Whoever buys has exactly the quoted tokens on top, crossing or not, seeded or not; and a buy that empties the
      curve graduates it exactly when the pool takes it, all the raise and all the tokens held back included. */
  lemma BuyDelivers(p: Pad, who: Account, id: nat, quoteIn: U128, min: nat, isTrade: bool, env: Env)
    requires Inv(p) && Trader(who) && Buy(p, who, id, quoteIn, min, isTrade, env).Ok?
    ensures id in p.launches && id in p.curves && env.hook.Some? && BuyPrice(p, id, env.hook.value.0).Ok?
    ensures var p', b := Buy(p, who, id, quoteIn, min, isTrade, env).value.pad, BuyPrice(p, id, env.hook.value.0).value;
            var crossed := b.tokensOut == p.curves[id].tokensRemaining;
            && id in p'.curves && b.tokensOut >= min
            && Bal(p'.tokens, (id, who)) == Bal(p.tokens, (id, who)) + b.tokensOut
            && (who.User? ==> Bal(p'.quote, who) == Bal(p.quote, who) - b.quoteUsed - env.hook.value.1)
            && p'.curves[id].phase == (if !crossed then Trading
                                       else if PoolTakes(p.config, env.seeding) then Graduated else Complete)
            && (p'.curves[id].phase == Graduated ==>
                  PoolHasAll(p, p', id, p.curves[id].realQuote + b.quoteNetUsed, env.seeding))
  {
    assert LaunchOk(p, id);
    BuyExactly(p, who, id, quoteIn, min, isTrade, env);
    BuyEffect(p, who, id, quoteIn, min, isTrade, env);
    var f := BuyBeforeSeed(p, who, id, quoteIn, min, isTrade, env).value;
    BoughtBy(p, f.pad, who, id, BuyPrice(p, id, env.hook.value.0).value, env.hook.value.1, isTrade, env.sinkOpen);
    if f.crossed {
      ReplacedKeepsInv(p, f.pad, id);
      SeedIff(f.pad, id, env.seeding);
      if PoolTakes(p.config, env.seeding) {
        SeedDelivers(f.pad, who, id, env.seeding);
      }
    }
  }

  /** The pool's account has all that was raised, with what its own minimum took, and all the tokens held back. */
  ghost predicate PoolHasAll(p: Pad, p': Pad, id: nat, raised: nat, seeding: Seeding)
    requires seeding.Seeded?
  {
    && Bal(p'.quote, Pool(id)) == Bal(p.quote, Pool(id)) + raised + seeding.endowment
    && Bal(p'.tokens, (id, Pool(id))) == Bal(p.tokens, (id, Pool(id))) + p.config.Reserved()
    && id in p'.curves && p'.curves[id].lpShares == seeding.shares && p'.curves[id].realQuote == 0
  }

  lemma BoughtBy(p: Pad, p': Pad, who: Account, id: nat, b: Curve.BuyQuote, extra: nat, isTrade: bool, sinkOpen: bool)
    requires Trader(who) && id in p.launches && id in p.curves
    requires BoughtAt(p, p', who, id, b, extra, isTrade, sinkOpen)
    ensures Bal(p'.tokens, (id, who)) == Bal(p.tokens, (id, who)) + b.tokensOut
    ensures who.User? ==> Bal(p'.quote, who) == Bal(p.quote, who) - b.quoteUsed - extra
    ensures Bal(p'.quote, Pool(id)) == Bal(p.quote, Pool(id))
    ensures Bal(p'.tokens, (id, Pool(id))) == Bal(p.tokens, (id, Pool(id)))
    ensures p'.curves[id].realQuote == p.curves[id].realQuote + b.quoteNetUsed && p'.config == p.config
  {
  }

  lemma SeedDelivers(p: Pad, who: Account, id: nat, seeding: Seeding)
    requires Trader(who) && Seed(p, id, seeding).Ok?
    ensures id in p.curves && seeding.Seeded?
    ensures var p' := Seed(p, id, seeding).value;
            && Bal(p'.tokens, (id, who)) == Bal(p.tokens, (id, who)) && Bal(p'.quote, who) == Bal(p.quote, who)
            && PoolHasAll(p, p', id, p.curves[id].realQuote, seeding) && p'.curves[id].phase == Graduated
  {
    SeedExactly(p, id, seeding);
  }

  /** A launch is created exactly when creation is open, its pool does not exist yet and could be seeded, the creator
      can pay the fee, and the protocol can take what the fee leaves. */
  lemma OpenIff(p: Pad, creator: Account, recipient: Option<Account>, poolExists: bool)
    requires Inv(p) && creator.User? && Total(p.quote) <= U128_MAX
    ensures Open(p, creator, recipient, poolExists).Ok? <==>
            && !p.paused && !poolExists
            && 1_001 * 1_001 <= p.params.graduationTarget * SatSub(p.config.totalSupply, p.config.sellable)
            && p.params.creationFee + p.config.existentialDeposit <= Bal(p.quote, creator)
            && Lands(p.config, Bal(p.quote, ProtocolTreasury),
                     Spare(p.config, p.quote, p.nextId, p.params.creationFee))
  {
    OpenMoneyIff(p.config, p.quote, creator, p.nextId, p.params.creationFee);
  }

  lemma OpenMoneyIff(c: Config, q: map<Account, nat>, creator: Account, id: nat, fee: nat)
    requires creator.User? && Total(q) <= U128_MAX && 2 * c.existentialDeposit + c.assetDeposits <= fee
    requires 0 < c.existentialDeposit
    ensures OpenMoney(c, q, creator, id, fee).Ok? <==>
            fee + c.existentialDeposit <= Bal(q, creator) && Lands(c, Bal(q, ProtocolTreasury), Spare(c, q, id, fee))
  {
    PayIff(c, q, creator, Escrow(id), fee);
    TwoWithinTotal(q, creator, Escrow(id));
    var q1 := PayQuote(c, q, creator, Escrow(id), fee);
    if q1.Ok? {
      PayEffect(c, q, creator, Escrow(id), fee);
      var q2 := Move(q1.value, Escrow(id), Deposits(id), c.assetDeposits);
      assert Bal(q2, Escrow(id)) == Bal(q, Escrow(id)) + fee - c.assetDeposits;
      assert Bal(q2, ProtocolTreasury) == Bal(q, ProtocolTreasury);
      PayIff(c, q2, Escrow(id), ProtocolTreasury, Spare(c, q, id, fee));
    }
  }

  /** A creation goes through exactly when its launch does and, if it asks for one, its first buy; its creator then has
      exactly what the fresh curve quotes for the offer. */
  lemma FirstBuyDelivers(p: Pad, creator: Account, recipient: Option<Account>, poolExists: bool, initialBuy: U128,
                         min: nat, env: Env)
    requires Inv(p) && creator.User? && Total(p.quote) <= U128_MAX
    ensures var launched := Open(p, creator, recipient, poolExists);
            CreateLaunch(p, creator, recipient, poolExists, initialBuy, min, env).Ok? <==>
            launched.Ok? && (initialBuy == 0 || Buyable(launched.value, creator, p.nextId, initialBuy, min, env))
    ensures CreateLaunch(p, creator, recipient, poolExists, initialBuy, min, env).Ok? ==>
              var p' := CreateLaunch(p, creator, recipient, poolExists, initialBuy, min, env).value;
              var unsold := CurveHistory.Created(p.config.sellable);
              && (initialBuy == 0 ==> Launched(p, p', creator, recipient))
              && (initialBuy > 0 ==>
                    && env.hook.Some?
                    && var price := Curve.QuoteBuy(TermsOf(p.config, Snapshot(p.params)), unsold, env.hook.value.0);
                       && price.Ok?
                       && Bal(p'.tokens, (p.nextId, creator))
                          == Bal(p.tokens, (p.nextId, creator)) + price.value.tokensOut)
  {
    if Open(p, creator, recipient, poolExists).Ok? {
      var p1 := Open(p, creator, recipient, poolExists).value;
      OpenKeepsInv(p, creator, recipient, poolExists);
      OpenExactly(p, creator, recipient, poolExists);
      BuyIff(p1, creator, p.nextId, initialBuy, min, true, env);
      if Buy(p1, creator, p.nextId, initialBuy, min, true, env).Ok? {
        BuyDelivers(p1, creator, p.nextId, initialBuy, min, true, env);
      }
    }
  }

  // ---- creator fees, settings, terms ------------------------------------------------------------

  /** Fees are claimed exactly by their recipient, when there are any, into an account that can take them. */
  lemma ClaimIff(p: Pad, who: Account, id: nat)
    requires Inv(p)
    ensures ClaimCreatorFees(p, who, id).Ok? <==>
            && id in p.launches && p.launches[id].feeRecipient == who && 0 < p.curves[id].creatorFees
            && Lands(p.config, Bal(p.quote, who), p.curves[id].creatorFees)
  {
    if id in p.launches && p.launches[id].feeRecipient == who && p.curves[id].creatorFees > 0 {
      ClaimIsCovered(p, who, id);
    }
  }

  /** The recipient of a launch's creator fees is changed by the present one and by nobody else. */
  lemma SetRecipientIff(p: Pad, who: Account, id: nat, to: Account)
    ensures SetFeeRecipient(p, who, id, to).Ok? <==> id in p.launches && p.launches[id].feeRecipient == who
    ensures SetFeeRecipient(p, who, id, to).Ok? ==>
              var p' := SetFeeRecipient(p, who, id, to).value;
              && id in p'.launches && p'.launches[id] == p.launches[id].(feeRecipient := to)
              && p' == p.(launches := p.launches[id := p'.launches[id]])
  {
  }

  /** Settings are taken exactly within the runtime's bounds, and change nothing but what later launches snapshot. */
  lemma SetParamsIff(p: Pad, params: LaunchParams)
    ensures SetParams(p, params).Ok? <==>
            && p.config.minGraduationTarget <= params.graduationTarget <= p.config.maxGraduationTarget
            && params.curveFeeBps <= p.config.maxCurveFeeBps
            && p.config.minProtocolShareBps <= params.protocolShareBps + params.treasuryShareBps <= 10_000
            && (params.poolFeeTier == 3 || params.poolFeeTier == 10) && p.config.minCreationFee <= params.creationFee
    ensures SetParams(p, params).Ok? ==> SetParams(p, params).value == p.(params := params)
  {
  }

  /** A launch's record never changes but for its fee recipient, and that only by the recipient's own call. */
  ghost predicate RecordStands(p: Pad, p': Pad, id: nat)
    requires id in p.launches
  {
    id in p'.launches && p'.launches[id] == p.launches[id].(feeRecipient := p'.launches[id].feeRecipient)
  }

  lemma StepKeepsTerms(p: Pad, call: Call, id: nat)
    requires Inv(p) && id in p.launches
    ensures RecordStands(p, Step(p, call), id)
    ensures Step(p, call).launches[id].feeRecipient != p.launches[id].feeRecipient ==>
              call.CallSetRecipient? && call.id == id && User(call.who) == p.launches[id].feeRecipient
  {
    if Dispatch(p, call).Ok? {
      match call
      case CallCreate(creator, recipient, poolExists, initialBuy, minOut, env) =>
        CreateKeepsTerms(p, User(creator), recipient, poolExists, initialBuy, minOut, env, id);
      case CallBuy(who, i, quoteIn, minOut, env) => BuyKeepsRecords(p, User(who), i, quoteIn, minOut, true, env);
      case CallVaultBuy(i, quoteIn, minOut, env) => BuyKeepsRecords(p, Vault, i, quoteIn, minOut, false, env);
      case CallSell(who, i, tokensIn, minOut, env) => SellExactly(p, User(who), i, tokensIn, minOut, env);
      case _ => OtherKeepsTerms(p, call, id);
    }
  }

  lemma BuyKeepsRecords(p: Pad, who: Account, id: nat, quoteIn: U128, min: nat, isTrade: bool, env: Env)
    requires Trader(who) && Buy(p, who, id, quoteIn, min, isTrade, env).Ok?
    ensures Buy(p, who, id, quoteIn, min, isTrade, env).value.pad.launches == p.launches
  {
    BuyExactly(p, who, id, quoteIn, min, isTrade, env);
  }

  lemma CreateKeepsTerms(p: Pad, creator: Account, recipient: Option<Account>, poolExists: bool, initialBuy: U128,
                         min: nat, env: Env, id: nat)
    requires Inv(p) && creator.User? && id in p.launches
    requires CreateLaunch(p, creator, recipient, poolExists, initialBuy, min, env).Ok?
    ensures var p' := CreateLaunch(p, creator, recipient, poolExists, initialBuy, min, env).value;
            id in p'.launches && p'.launches[id] == p.launches[id]
  {
    OpenExactly(p, creator, recipient, poolExists);
    assert id in p.curves;
    if initialBuy > 0 {
      BuyKeepsRecords(Open(p, creator, recipient, poolExists).value, creator, p.nextId, initialBuy, min, true, env);
    }
  }

  lemma OtherKeepsTerms(p: Pad, call: Call, id: nat)
    requires id in p.launches && Dispatch(p, call).Ok?
    requires !call.CallCreate? && !call.CallBuy? && !call.CallVaultBuy? && !call.CallSell?
    ensures RecordStands(p, Dispatch(p, call).value, id)
    ensures Dispatch(p, call).value.launches[id].feeRecipient != p.launches[id].feeRecipient ==>
              call.CallSetRecipient? && call.id == id && User(call.who) == p.launches[id].feeRecipient
  {
  }

  /** Over every run a launch trades on the terms of its creation, whatever governance sets. */
  lemma {:induction false} RunKeepsTerms(p: Pad, calls: seq<Call>, id: nat)
    requires Inv(p) && id in p.launches
    ensures RecordStands(p, Run(p, calls), id)
    decreases |calls|
  {
    if calls != [] {
      StepKeepsTerms(p, calls[0], id);
      StepKeepsInv(p, calls[0]);
      RunKeepsTerms(Step(p, calls[0]), calls[1..], id);
    }
  }
}
