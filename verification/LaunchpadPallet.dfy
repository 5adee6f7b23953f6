/** The launchpad as it runs: storage and balances updated in place, each extrinsic inside a storage layer. */
module LaunchpadPallet {
  import opened Arith
  import opened Results
  import opened Ledger
  import opened LaunchTerms
  import opened LaunchpadSpec
  import Curve
  import CurveHistory

  class Launchpad {
    const config: Config
    var params: SettableParams
    var paused: bool
    var now: nat
    var nextId: nat
    var launches: map<nat, Launch>
    var curves: map<nat, CurveState>
    var quote: map<Account, nat>
    var tokens: map<(nat, Account), nat>

    constructor (config: Config, params: SettableParams, quote: map<Account, nat>)
      ensures View() == Pad(config, params, false, 0, 0, map[], map[], quote, map[])
    {
      this.config := config;
      this.params := params;
      paused, now, nextId := false, 0, 0;
      launches, curves, tokens := map[], map[], map[];
      this.quote := quote;
    }

    /** Everything the calls read and write. */
    function View(): Pad
      reads this
    {
      Pad(config, params, paused, now, nextId, launches, curves, quote, tokens)
    }

    /** Drops a storage layer. */
    method Restore(saved: Pad)
      requires saved.config == config
      modifies this
      ensures View() == saved
    {
      params, paused, now, nextId := saved.params, saved.paused, saved.now, saved.nextId;
      launches, curves, quote, tokens := saved.launches, saved.curves, saved.quote, saved.tokens;
    }

    method TransferQuote(from: Account, to: Account, amount: nat) returns (r: Result<(), Error>)
      modifies this`quote
      ensures match PayQuote(config, old(quote), from, to, amount)
              case Ok(q) => r == Ok(()) && quote == q
              case Err(e) => r == Err(e) && quote == old(quote)
    {
      var moved := PayQuote(config, quote, from, to, amount);
      if moved.Err? {
        return Err(moved.error);
      }
      quote := moved.value;
      return Ok(());
    }

    method TransferTokens(id: nat, from: Account, to: Account, amount: nat) returns (r: Result<(), Error>)
      modifies this`tokens
      ensures match PayTokens(old(tokens), id, from, to, amount)
              case Ok(t) => r == Ok(()) && tokens == t
              case Err(e) => r == Err(e) && tokens == old(tokens)
    {
      var moved := PayTokens(tokens, id, from, to, amount);
      if moved.Err? {
        return Err(moved.error);
      }
      tokens := moved.value;
      return Ok(());
    }

    /** Pays the protocol and treasury parts of a fee out of the escrow; answers what each received. */
    method PayFees(id: nat, split: FeeSplit, sinkOpen: bool) returns (r: Result<(nat, nat), Error>)
      modifies this`quote
      ensures match PayFeeParts(config, old(quote), id, split, sinkOpen)
              case Ok(paid) => r == Ok((paid.protocol, paid.treasury)) && quote == paid.quote
              case Err(e) => r == Err(e)
    {
      var protocol, treasury := split.protocol, split.treasury;
      var sink := treasury > 0 && sinkOpen;
      if sink {
        sink := CanDeposit(quote, Vault, treasury, config.existentialDeposit);
      }
      if !sink {
        protocol, treasury := protocol + treasury, 0;
      }
      if protocol > 0 {
        var toProtocol := TransferQuote(Escrow(id), ProtocolTreasury, protocol);
        if toProtocol.Err? {
          return Err(toProtocol.error);
        }
      }
      if sink {
        var toVault := TransferQuote(Escrow(id), Vault, treasury);
        if toVault.Err? {
          return Err(toVault.error);
        }
      }
      return Ok((protocol, treasury));
    }

    /** The hook's extra charge, if it makes one. */
    method ChargeHook(who: Account, extra: nat) returns (r: Result<(), Error>)
      modifies this`quote
      ensures match PayHook(old(View()), who, extra)
              case Ok(q) => r == Ok(()) && quote == q
              case Err(e) => r == Err(e)
    {
      if extra > 0 {
        r := TransferQuote(who, ProtocolTreasury, extra);
      } else {
        r := Ok(());
      }
    }

    /** Funds of a priced buy; answers what protocol and treasury received. */
    method BuyFunds(who: Account, id: nat, b: Curve.BuyQuote, split: FeeSplit, sinkOpen: bool)
      returns (r: Result<(nat, nat), Error>)
      modifies this`quote, this`tokens
      ensures match BuyMoney(config, old(quote), old(tokens), who, id, b, split, sinkOpen)
              case Ok(m) => r == Ok((m.fees.protocol, m.fees.treasury)) && quote == m.fees.quote && tokens == m.tokens
              case Err(e) => r == Err(e)
    {
      var charged := TransferQuote(who, Escrow(id), b.quoteUsed);
      if charged.Err? {
        return Err(charged.error);
      }
      var fees := PayFees(id, split, sinkOpen);
      if fees.Err? {
        return Err(fees.error);
      }
      var delivered := TransferTokens(id, Escrow(id), who, b.tokensOut);
      if delivered.Err? {
        return Err(delivered.error);
      }
      return fees;
    }

    /** Funds of a priced sell; answers what protocol and treasury received. */
    method SellFunds(who: Account, id: nat, tokensIn: nat, x: Curve.SellQuote, split: FeeSplit, sinkOpen: bool)
      returns (r: Result<(nat, nat), Error>)
      modifies this`quote, this`tokens
      ensures match SellMoney(config, old(quote), old(tokens), who, id, tokensIn, x, split, sinkOpen)
              case Ok(m) => r == Ok((m.fees.protocol, m.fees.treasury)) && quote == m.fees.quote && tokens == m.tokens
              case Err(e) => r == Err(e)
    {
      var taken := TransferTokens(id, who, Escrow(id), tokensIn);
      if taken.Err? {
        return Err(taken.error);
      }
      var fees := PayFees(id, split, sinkOpen);
      if fees.Err? {
        return Err(fees.error);
      }
      var proceeds := TransferQuote(Escrow(id), who, x.quoteOut);
      if proceeds.Err? {
        return Err(proceeds.error);
      }
      return fees;
    }

    /** A priced buy, carried out: funds, then the record. Answers whether it emptied the curve. */
    method DoFillBuy(who: Account, id: nat, b: Curve.BuyQuote, isTrade: bool, sinkOpen: bool)
      returns (r: Result<bool, Error>)
      requires id in launches && id in curves
      requires curves[id].realQuote + b.quoteNetUsed <= U128_MAX && b.tokensOut <= curves[id].tokensRemaining
      modifies this`quote, this`tokens, this`curves
      ensures match FillBuy(old(View()), who, id, b, isTrade, sinkOpen)
              case Ok(f) => r == Ok(f.crossed) && View() == f.pad
              case Err(e) => r == Err(e)
    {
      var launch, s := launches[id], curves[id];
      var split := SplitFee(b.fee, launch.curve.protocolShareBps, launch.curve.treasuryShareBps);
      var fees := BuyFunds(who, id, b, split, sinkOpen);
      if fees.Err? {
        return Err(fees.error);
      }
      s := UpdateOnBuy(s, b, split.creator, fees.value.0, fees.value.1, isTrade);
      curves := curves[id := s];
      return Ok(s.tokensRemaining == 0);
    }

    /** The curve record after a buy, field by field. */
    method UpdateOnBuy(s0: CurveState, b: Curve.BuyQuote, creator: nat, protocol: nat, treasury: nat, isTrade: bool)
      returns (s: CurveState)
      requires s0.realQuote + b.quoteNetUsed <= U128_MAX && b.tokensOut <= s0.tokensRemaining
      ensures s == BuyRecord(s0, b, creator, protocol, treasury, now, isTrade)
    {
      s := s0;
      s := s.(creatorFees := SatAdd(s.creatorFees, creator));
      s := s.(protocolPaid := SatAdd(s.protocolPaid, protocol));
      s := s.(treasuryPaid := SatAdd(s.treasuryPaid, treasury));
      if isTrade {
        s := s.(lastTrade := now);
      }
      s := s.(realQuote := s.realQuote + b.quoteNetUsed);
      s := s.(tokensRemaining := s.tokensRemaining - b.tokensOut);
      if s.tokensRemaining == 0 {
        s := s.(phase := Complete);
        s := s.(completedAt := Some(now));
      }
    }

    /** A priced sell, carried out: funds, then the record. */
    method DoFillSell(who: Account, id: nat, tokensIn: U128, x: Curve.SellQuote, sinkOpen: bool)
      returns (r: Result<(), Error>)
      requires id in launches && id in curves
      requires x.quoteGross <= curves[id].realQuote && curves[id].tokensRemaining + tokensIn <= U128_MAX
      modifies this`quote, this`tokens, this`curves
      ensures match FillSell(old(View()), who, id, tokensIn, x, sinkOpen)
              case Ok(f) => r == Ok(()) && View() == f.pad
              case Err(e) => r == Err(e)
    {
      var launch, s := launches[id], curves[id];
      var split := SplitFee(x.fee, launch.curve.protocolShareBps, launch.curve.treasuryShareBps);
      var fees := SellFunds(who, id, tokensIn, x, split, sinkOpen);
      if fees.Err? {
        return Err(fees.error);
      }
      s := UpdateOnSell(s, tokensIn, x, split.creator, fees.value.0, fees.value.1);
      curves := curves[id := s];
      return Ok(());
    }

    /** The curve record after a sell, field by field. */
    method UpdateOnSell(s0: CurveState, tokensIn: U128, x: Curve.SellQuote, creator: nat, protocol: nat, treasury: nat)
      returns (s: CurveState)
      requires x.quoteGross <= s0.realQuote && s0.tokensRemaining + tokensIn <= U128_MAX
      ensures s == SellRecord(s0, tokensIn, x, creator, protocol, treasury, now)
    {
      s := s0;
      s := s.(creatorFees := SatAdd(s.creatorFees, creator));
      s := s.(protocolPaid := SatAdd(s.protocolPaid, protocol));
      s := s.(treasuryPaid := SatAdd(s.treasuryPaid, treasury));
      s := s.(lastTrade := now);
      s := s.(realQuote := s.realQuote - x.quoteGross);
      s := s.(tokensRemaining := s.tokensRemaining + tokensIn);
    }

    /** The single body of every buy. On an error the caller's storage layer drops what was done. */
    method DoBuy(who: Account, id: nat, quoteIn: U128, minTokensOut: nat, isTrade: bool, env: Env)
      returns (r: Result<(bool, U128, U128), Error>)
      modifies this
      ensures match LaunchpadSpec.Buy(old(View()), who, id, quoteIn, minTokensOut, isTrade, env)
              case Ok(b) => r == Ok((b.crossed, b.tokensOut, b.quoteUsed)) && View() == b.pad
              case Err(e) => r == Err(e)
    {
      r := PriceAndFill(who, id, quoteIn, minTokensOut, isTrade, env);
      if r.Ok? && r.value.0 {
        var layer := View();
        var seeded := DoSeed(id, env.seeding);
        if seeded.Err? {
          Restore(layer);
        }
      }
    }

    method PriceAndFill(who: Account, id: nat, quoteIn: U128, minTokensOut: nat, isTrade: bool, env: Env)
      returns (r: Result<(bool, U128, U128), Error>)
      modifies this`quote, this`tokens, this`curves
      ensures match LaunchpadSpec.BuyBeforeSeed(old(View()), who, id, quoteIn, minTokensOut, isTrade, env)
              case Ok(b) => r == Ok((b.crossed, b.tokensOut, b.quoteUsed)) && View() == b.pad
              case Err(e) => r == Err(e)
    {
      if id !in launches || id !in curves {
        return Err(LaunchNotFound);
      }
      var launch, s := launches[id], curves[id];
      if s.phase != Trading {
        return Err(WrongPhase);
      }
      if quoteIn == 0 {
        return Err(ZeroAmount);
      }
      if env.hook.None? {
        return Err(HookFailed);
      }
      var (toCurve, extra) := env.hook.value;
      var hooked := ChargeHook(who, extra);
      if hooked.Err? {
        return Err(hooked.error);
      }
      var priced := Curve.QuoteBuy(TermsOf(config, launch.curve), CurveOf(s), toCurve);
      if priced.Err? {
        return Err(MapMath(priced.error));
      }
      var b := priced.value;
      if b.tokensOut < minTokensOut {
        return Err(SlippageExceeded);
      }
      CurveHistory.BuyFits(TermsOf(config, launch.curve), CurveOf(s), toCurve);
      var filled := DoFillBuy(who, id, b, isTrade, env.sinkOpen);
      if filled.Err? {
        return Err(filled.error);
      }
      return Ok((filled.value, b.tokensOut, b.quoteUsed));
    }

    method DoSell(who: Account, id: nat, tokensIn: U128, minQuoteOut: nat, env: Env) returns (r: Result<U128, Error>)
      modifies this`quote, this`tokens, this`curves
      ensures match LaunchpadSpec.Sell(old(View()), who, id, tokensIn, minQuoteOut, env)
              case Ok(x) => r == Ok(x.traded) && View() == x.pad
              case Err(e) => r == Err(e)
    {
      if id !in launches || id !in curves {
        return Err(LaunchNotFound);
      }
      var launch, s := launches[id], curves[id];
      if s.phase != Trading {
        return Err(WrongPhase);
      }
      if tokensIn == 0 {
        return Err(ZeroAmount);
      }
      var sold := SatSub(config.sellable, s.tokensRemaining);
      if tokensIn > sold {
        return Err(SellExceedsSold);
      }
      r := PriceAndFillSell(who, id, tokensIn, minQuoteOut, env.sinkOpen);
    }

    /** Prices a sell that may be made, and makes it. */
    method PriceAndFillSell(who: Account, id: nat, tokensIn: U128, minQuoteOut: nat, sinkOpen: bool)
      returns (r: Result<U128, Error>)
      requires id in launches && id in curves
      modifies this`quote, this`tokens, this`curves
      ensures match LaunchpadSpec.PricedSell(old(View()), who, id, tokensIn, minQuoteOut, sinkOpen)
              case Ok(x) => r == Ok(x.traded) && View() == x.pad
              case Err(e) => r == Err(e)
    {
      var launch, s := launches[id], curves[id];
      var priced := Curve.QuoteSell(TermsOf(config, launch.curve), CurveOf(s), tokensIn);
      if priced.Err? {
        return Err(MapMath(priced.error));
      }
      var x := priced.value;
      if x.quoteOut < minQuoteOut {
        return Err(SlippageExceeded);
      }
      CurveHistory.SellFits(TermsOf(config, launch.curve), CurveOf(s), tokensIn);
      var filled := DoFillSell(who, id, tokensIn, x, sinkOpen);
      if filled.Err? {
        return Err(filled.error);
      }
      return Ok(x.quoteOut + x.fee);
    }

    /** Moves the curve's quote and the reserved tokens to the pool the exchange opens, or changes nothing. */
    method DoSeed(id: nat, seeding: Seeding) returns (r: Result<(), Error>)
      modifies this
      ensures match LaunchpadSpec.Seed(old(View()), id, seeding)
              case Ok(p) => r == Ok(()) && View() == p
              case Err(e) => r == Err(e)
    {
      if id !in launches || id !in curves {
        return Err(LaunchNotFound);
      }
      var s, reserved := curves[id], config.Reserved();
      if s.phase != Complete {
        return Err(WrongPhase);
      }
      if seeding.SeedRefused? {
        return Err(DexFailed);
      }
      if seeding.shares == 0 || seeding.endowment > config.existentialDeposit {
        return Err(DexFailed);
      }
      if Bal(quote, Escrow(id)) < s.realQuote + seeding.endowment || Bal(tokens, (id, Escrow(id))) < reserved {
        return Err(DexFailed);
      }
      quote := Move(quote, Escrow(id), Pool(id), s.realQuote + seeding.endowment);
      tokens := Move(tokens, (id, Escrow(id)), (id, Pool(id)), reserved);
      s := s.(realQuote := 0);
      s := s.(lpShares := seeding.shares);
      s := s.(phase := Graduated);
      s := s.(graduatedAt := Some(now));
      curves := curves[id := s];
      return Ok(());
    }

    // ---- extrinsics: a refused call leaves no trace ------------------------------

    /** Answers the fill, and whether the call was free. */
    method Buy(who: Account, id: nat, quoteIn: U128, minTokensOut: nat, env: Env)
      returns (r: Result<(bool, U128, U128), Error>, free: bool)
      modifies this
      ensures match LaunchpadSpec.Buy(old(View()), who, id, quoteIn, minTokensOut, true, env)
              case Ok(b) =>
                && r == Ok((b.crossed, b.tokensOut, b.quoteUsed)) && View() == b.pad && id in old(launches)
                && free == IsFree(config, old(launches)[id].curve, b.quoteUsed)
              case Err(e) => r == Err(e) && View() == old(View()) && !free
    {
      var layer := View();
      free := false;
      r := DoBuy(who, id, quoteIn, minTokensOut, true, env);
      if r.Err? {
        Restore(layer);
      } else {
        free := IsFree(config, layer.launches[id].curve, r.value.2);
      }
    }

    /** The treasury's own buy: the same path, but no trade for the dormancy clock. */
    method BuyFor(id: nat, quoteIn: U128, minTokensOut: nat, env: Env) returns (r: Result<U128, Error>)
      modifies this
      ensures match LaunchpadSpec.Buy(old(View()), Vault, id, quoteIn, minTokensOut, false, env)
              case Ok(b) => r == Ok(b.tokensOut) && View() == b.pad
              case Err(e) => r == Err(e) && View() == old(View())
    {
      var layer := View();
      var b := DoBuy(Vault, id, quoteIn, minTokensOut, false, env);
      if b.Err? {
        Restore(layer);
        return Err(b.error);
      }
      return Ok(b.value.1);
    }

    method Sell(who: Account, id: nat, tokensIn: U128, minQuoteOut: nat, env: Env)
      returns (r: Result<U128, Error>, free: bool)
      modifies this
      ensures match LaunchpadSpec.Sell(old(View()), who, id, tokensIn, minQuoteOut, env)
              case Ok(x) =>
                && r == Ok(x.traded) && View() == x.pad && id in old(launches)
                && free == IsFree(config, old(launches)[id].curve, x.traded)
              case Err(e) => r == Err(e) && View() == old(View()) && !free
    {
      var layer := View();
      free := false;
      r := DoSell(who, id, tokensIn, minQuoteOut, env);
      if r.Err? {
        Restore(layer);
      } else {
        free := IsFree(config, layer.launches[id].curve, r.value);
      }
    }

    method Graduate(id: nat, seeding: Seeding) returns (r: Result<(), Error>)
      modifies this
      ensures match LaunchpadSpec.Seed(old(View()), id, seeding)
              case Ok(p) => r == Ok(()) && View() == p
              case Err(e) => r == Err(e) && View() == old(View())
    {
      var layer := View();
      r := DoSeed(id, seeding);
      if r.Err? {
        Restore(layer);
      }
    }

    method ClaimCreatorFees(who: Account, id: nat) returns (r: Result<nat, Error>)
      modifies this
      ensures match LaunchpadSpec.ClaimCreatorFees(old(View()), who, id)
              case Ok(p) => r == Ok(old(curves)[id].creatorFees) && View() == p
              case Err(e) => r == Err(e) && View() == old(View())
    {
      if id !in launches {
        return Err(LaunchNotFound);
      }
      if who != launches[id].feeRecipient {
        return Err(NotFeeRecipient);
      }
      if id !in curves {
        return Err(LaunchNotFound);
      }
      var amount := curves[id].creatorFees;
      if amount == 0 {
        return Err(ZeroAmount);
      }
      var layer := View();
      curves := curves[id := curves[id].(creatorFees := 0)];
      var paid := TransferQuote(Escrow(id), who, amount);
      if paid.Err? {
        Restore(layer);
        return Err(paid.error);
      }
      return Ok(amount);
    }
  }
}
