/** What one trade does to every party, to the unit, and which calls count as trades. */
module LaunchpadTrades {
  import opened Arith
  import opened Ledger
  import opened LaunchTerms
  import opened LaunchpadSpec
  import opened LaunchpadEffects
  import opened LaunchpadRuns
  import Curve
  import CurveHistory

  /** What an escrow holds above what its launch owes: quote. */
  function QuoteSlack(p: Pad, id: nat): int
    requires id in p.curves
  {
    Bal(p.quote, Escrow(id)) - Owed(p.config, p.curves[id])
  }

  /** ... and tokens. */
  function TokenSlack(p: Pad, id: nat): int
    requires id in p.curves
  {
    Bal(p.tokens, (id, Escrow(id))) - p.curves[id].tokensRemaining
  }

  /** The fee of a trade, as its receivers saw it. */
  datatype Split = Split(protocol: int, treasury: int, creator: int)

  /** The counters of a record grew by what the receivers got, while nothing saturates. */
  predicate Counted(s: CurveState, s': CurveState, f: Split) {
    && (s.creatorFees + f.creator <= U128_MAX ==> s'.creatorFees == s.creatorFees + f.creator)
    && (s.protocolPaid + f.protocol <= U128_MAX ==> s'.protocolPaid == s.protocolPaid + f.protocol)
    && (s.treasuryPaid + f.treasury <= U128_MAX ==> s'.treasuryPaid == s.treasuryPaid + f.treasury)
  }

  /** A buy is counted as what it paid, keeps the escrow's slack in both ledgers, and stamps the last trade only when it
      is one. */
  lemma BuyIsCounted(p: Pad, who: nat, id: nat, quoteIn: U128, min: nat, isTrade: bool, env: Env)
    requires LaunchOk(p, id) && BuyBeforeSeed(p, User(who), id, quoteIn, min, isTrade, env).Ok?
    ensures var b := BuyBeforeSeed(p, User(who), id, quoteIn, min, isTrade, env).value;
            var creator := Bal(b.pad.quote, Escrow(id)) - Bal(p.quote, Escrow(id))
                           - (b.pad.curves[id].realQuote - p.curves[id].realQuote);
            && 0 <= creator
            && Counted(p.curves[id], b.pad.curves[id],
                       Split(Bal(b.pad.quote, ProtocolTreasury) - Bal(p.quote, ProtocolTreasury) - env.hook.value.1,
                             Bal(b.pad.quote, Vault) - Bal(p.quote, Vault), creator))
            && (p.curves[id].creatorFees + creator <= U128_MAX ==> QuoteSlack(b.pad, id) == QuoteSlack(p, id))
            && TokenSlack(b.pad, id) == TokenSlack(p, id)
            && b.pad.curves[id].lastTrade == (if isTrade then p.now else p.curves[id].lastTrade)
  {
    BuyExactly(p, User(who), id, quoteIn, min, isTrade, env);
    var f := BuyBeforeSeed(p, User(who), id, quoteIn, min, isTrade, env).value;
    var b := BuyPrice(p, id, env.hook.value.0).value;
    CurveHistory.BuyFits(TermsOf(p.config, p.launches[id].curve), CurveOf(p.curves[id]), env.hook.value.0);
    BuyEscrow(p, f.pad, User(who), id, b, env.hook.value.1, isTrade, env.sinkOpen);
    BuyReceivers(p, f.pad, who, id, b, env.hook.value.1, isTrade, env.sinkOpen);
  }

  /** What a signer's buy brings the receivers of its fee. */
  lemma BuyReceivers(p: Pad, p': Pad, who: nat, id: nat, b: Curve.BuyQuote, extra: nat, isTrade: bool, sinkOpen: bool)
    requires id in p.launches && id in p.curves && BoughtAt(p, p', User(who), id, b, extra, isTrade, sinkOpen)
    ensures var parts := Divided(p.config, p.launches[id].curve, b.fee, sinkOpen,
                                 VaultAt(p.quote, User(who), extra + b.quoteUsed));
            && Bal(p'.quote, ProtocolTreasury) == Bal(p.quote, ProtocolTreasury) + extra + parts.protocol
            && Bal(p'.quote, Vault) == Bal(p.quote, Vault) + parts.treasury
            && Bal(p'.quote, User(who)) == Bal(p.quote, User(who)) - extra - b.quoteUsed
  {
  }

  /** What the receivers of a sell's fee got, as measured on the balances. */
  function SellSplit(p: Pad, p': Pad, id: nat, gross: nat): Split {
    Split(Bal(p'.quote, ProtocolTreasury) - Bal(p.quote, ProtocolTreasury), Bal(p'.quote, Vault) - Bal(p.quote, Vault),
          Bal(p'.quote, Escrow(id)) - Bal(p.quote, Escrow(id)) + gross)
  }

  /** A sell pays its seller exactly the quoted proceeds, its fee splits without remainder as measured on the
      balances, it is counted as what it paid, keeps the escrow's slack, and stamps the last trade. */
  ghost predicate SoldExactly(p: Pad, p': Pad, who: nat, id: nat, x: Curve.SellQuote)
    requires id in p.curves && id in p'.curves
  {
    var f := SellSplit(p, p', id, x.quoteGross);
    && f.protocol + f.treasury + f.creator == x.fee && 0 <= f.creator && 0 <= f.protocol && 0 <= f.treasury
    && Bal(p'.quote, User(who)) == Bal(p.quote, User(who)) + x.quoteOut
    && Counted(p.curves[id], p'.curves[id], f)
    && (p.curves[id].creatorFees + f.creator <= U128_MAX ==> QuoteSlack(p', id) == QuoteSlack(p, id))
    && TokenSlack(p', id) == TokenSlack(p, id)
    && p'.curves[id].lastTrade == p.now
  }

  lemma SoldIsExact(p: Pad, p': Pad, who: nat, id: nat, tokensIn: nat, x: Curve.SellQuote, sinkOpen: bool)
    requires LaunchOk(p, id) && p.curves[id].phase == Trading && x.quoteGross == x.quoteOut + x.fee
    requires SoldAt(p, p', User(who), id, tokensIn, x, sinkOpen)
    ensures id in p'.curves && SoldExactly(p, p', who, id, x)
  {
    SellEscrow(p, p', User(who), id, tokensIn, x, sinkOpen);
    SellReceivers(p, p', who, id, tokensIn, x, sinkOpen);
  }

  /** What a signer's sell brings the receivers of its fee. */
  lemma SellReceivers(p: Pad, p': Pad, who: nat, id: nat, tokensIn: nat, x: Curve.SellQuote, sinkOpen: bool)
    requires id in p.launches && id in p.curves && SoldAt(p, p', User(who), id, tokensIn, x, sinkOpen)
    ensures var parts := Divided(p.config, p.launches[id].curve, x.fee, sinkOpen, Bal(p.quote, Vault));
            && Bal(p'.quote, ProtocolTreasury) == Bal(p.quote, ProtocolTreasury) + parts.protocol
            && Bal(p'.quote, Vault) == Bal(p.quote, Vault) + parts.treasury
            && Bal(p'.quote, User(who)) == Bal(p.quote, User(who)) + x.quoteOut
  {
  }

  lemma SellSplitsExactly(p: Pad, who: nat, id: nat, tokensIn: U128, min: nat, env: Env)
    requires LaunchOk(p, id) && Sell(p, User(who), id, tokensIn, min, env).Ok?
    ensures var p' := Sell(p, User(who), id, tokensIn, min, env).value.pad;
            var quote := Curve.QuoteSell(TermsOf(p.config, p.launches[id].curve), CurveOf(p.curves[id]), tokensIn);
            quote.Ok? && id in p'.curves && SoldExactly(p, p', who, id, quote.value)
  {
    SellExactly(p, User(who), id, tokensIn, min, env);
    SoldIsExact(p, Sell(p, User(who), id, tokensIn, min, env).value.pad, who, id, tokensIn,
                SellPrice(p, id, tokensIn).value, env.sinkOpen);
  }

  /** A claim pays exactly what the creator is owed out of exactly what was kept for it. */
  lemma ClaimIsExact(p: Pad, who: nat, id: nat)
    requires LaunchOk(p, id) && ClaimCreatorFees(p, User(who), id).Ok?
    ensures var p' := ClaimCreatorFees(p, User(who), id).value;
            && id in p'.curves && p'.curves[id].creatorFees == 0 && QuoteSlack(p', id) == QuoteSlack(p, id)
            && Bal(p'.quote, User(who)) == Bal(p.quote, User(who)) + p.curves[id].creatorFees
            && TokenSlack(p', id) == TokenSlack(p, id)
  {
    ClaimExactly(p, User(who), id);
  }

  // ---- the dormancy clock -----------------------------------------------------------------

  /** A signer's buy or sell of this launch. */
  predicate TradesOn(call: Call, id: nat) {
    (call.CallBuy? || call.CallSell?) && call.id == id
  }

  /** The last trade moves when a signer trades, to this very block, and for no other reason: not for the treasury's own
      buy, a seed, a claim or a rescue. */
  lemma OnlyTradesStampClock(p: Pad, call: Call, id: nat)
    requires Inv(p) && id in p.curves && id in Step(p, call).curves
    ensures TradesOn(call, id) && Dispatch(p, call).Ok? ==> Step(p, call).curves[id].lastTrade == p.now
    ensures !TradesOn(call, id) ==> Step(p, call).curves[id].lastTrade == p.curves[id].lastTrade
  {
    if Dispatch(p, call).Ok? {
      if call.CallCreate? {
        CreateStamps(p, call, id);
      } else if call.CallBuy? || call.CallVaultBuy? || call.CallSell? {
        TradeStamps(p, call, id);
      } else {
        OtherStamps(p, call, id);
      }
    }
  }

  lemma TradeStamps(p: Pad, call: Call, id: nat)
    requires (call.CallBuy? || call.CallVaultBuy? || call.CallSell?) && Dispatch(p, call).Ok? && id in p.curves
    ensures id in Dispatch(p, call).value.curves
    ensures Dispatch(p, call).value.curves[id].lastTrade == if TradesOn(call, id) then p.now else p.curves[id].lastTrade
  {
    match call
    case CallBuy(who, i, quoteIn, minOut, env) => BuyStamps(p, User(who), i, quoteIn, minOut, true, env, id);
    case CallVaultBuy(i, quoteIn, minOut, env) => BuyStamps(p, Vault, i, quoteIn, minOut, false, env, id);
    case CallSell(who, i, tokensIn, minOut, env) => SellStamps(p, User(who), i, tokensIn, minOut, env, id);
  }

  lemma SellStamps(p: Pad, who: Account, i: nat, tokensIn: U128, min: nat, env: Env, id: nat)
    requires Sell(p, who, i, tokensIn, min, env).Ok? && id in p.curves
    ensures var p' := Sell(p, who, i, tokensIn, min, env).value.pad;
            id in p'.curves && p'.curves[id].lastTrade == (if i == id then p.now else p.curves[id].lastTrade)
  {
  }

  lemma OtherStamps(p: Pad, call: Call, id: nat)
    requires !call.CallBuy? && !call.CallVaultBuy? && !call.CallSell? && !call.CallCreate?
    requires Dispatch(p, call).Ok? && id in p.curves
    ensures var p' := Dispatch(p, call).value;
            id in p'.curves && p'.curves[id].lastTrade == p.curves[id].lastTrade
  {
  }

  lemma BuyStamps(p: Pad, who: Account, i: nat, quoteIn: U128, min: nat, isTrade: bool, env: Env,
                  id: nat)
    requires Buy(p, who, i, quoteIn, min, isTrade, env).Ok? && id in p.curves
    ensures var p' := Buy(p, who, i, quoteIn, min, isTrade, env).value.pad;
            && id in p'.curves
            && p'.curves[id].lastTrade == (if isTrade && i == id then p.now else p.curves[id].lastTrade)
  {
  }

  lemma CreateStamps(p: Pad, call: Call, id: nat)
    requires Inv(p) && call.CallCreate? && Dispatch(p, call).Ok? && id in p.curves
    ensures id in Step(p, call).curves && Step(p, call).curves[id].lastTrade == p.curves[id].lastTrade
  {
    var p1 := Open(p, User(call.creator), call.recipient, call.poolExists).value;
    if call.initialBuy > 0 {
      BuyStamps(p1, User(call.creator), p.nextId, call.initialBuy, call.minOut, true, call.env, id);
    }
  }
}
