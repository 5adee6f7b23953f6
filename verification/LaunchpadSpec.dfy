/** The launchpad's calls as functions from one state to the next, or to an error that changes nothing. */
module LaunchpadSpec {
  import opened Arith
  import opened Results
  import opened Ledger
  import opened LaunchTerms
  import Curve
  import CurveHistory

  /** Distinct accounts: signers, the launches' escrows, deposits held for them, and the three receivers. */
  datatype Account =
    | User(id: nat)
    | Escrow(launch: nat)
    | Deposits(launch: nat)
    | Pool(launch: nat)
    | ProtocolTreasury
    | Vault

  datatype Phase = Trading | Complete | Graduated

  /** Parameters governance can have set, as far as a snapshot needs. */
  type SettableParams = p: LaunchParams | p.protocolShareBps + p.treasuryShareBps <= BPS
    witness LaunchParams(0, 0, 0, 0, 0, 0)

  /** A launch's cold record; its fee shares leave the creator a share, as every parameter set does. */
  datatype Launch = Launch(creator: Account, feeRecipient: Account, createdAt: nat, curve: SplittableParams)

  type SplittableParams = p: CurveParams | p.protocolShareBps + p.treasuryShareBps <= BPS
    witness CurveParams(0, 0, 0, 0, 0, 0)

  datatype CurveState = CurveState(
    phase: Phase, realQuote: U128, tokensRemaining: U128, creatorFees: nat, protocolPaid: nat, treasuryPaid: nat,
    lastTrade: nat, completedAt: Option<nat>, graduatedAt: Option<nat>, lpShares: nat)

  datatype Error =
    | LaunchNotFound | WrongPhase | ZeroAmount | SlippageExceeded | ArithmeticOverflow | Unquotable
    | NotFeeRecipient | CreationPaused | ParamsOutOfBounds | PoolAlreadySeeded | PoolNotFound | Unseedable
    | SellExceedsSold | RescueNotDue | HookFailed | DexFailed
    | TransferFailed(reason: TransferError)

  /** What the anti-snipe hook answers: what reaches the curve and what goes to the treasury, or a refusal. */
  type HookAnswer = Option<(U128, U128)>

  /** What a seed answers: shares, and what the pool's own minimum took on top (at most one minimum). */
  datatype Seeding = Seeded(shares: nat, endowment: nat) | SeedRefused

  /** What an existing pool took of a rescue deposit. */
  datatype Taken = Taken(quote: nat, tokens: nat, shares: nat)

  /** The parts of the runtime a trade meets: the hook, whether the sink takes this launch's fees, the pool. */
  datatype Env = Env(hook: HookAnswer, sinkOpen: bool, seeding: Seeding)

  datatype Pad = Pad(
    config: Config, params: SettableParams, paused: bool, now: nat, nextId: nat, launches: map<nat, Launch>,
    curves: map<nat, CurveState>, quote: map<Account, nat>, tokens: map<(nat, Account), nat>)

  function CurveOf(c: CurveState): Curve.State {
    Curve.State(c.realQuote, c.tokensRemaining)
  }

  function MapMath(e: Curve.MathError): Error {
    match e
    case ZeroAmount => ZeroAmount
    case Overflow => ArithmeticOverflow
    case Unquotable => Unquotable
    case BadState => ArithmeticOverflow
  }

  function Lift<T, E>(r: Result<T, E>, f: E -> Error): Result<T, Error> {
    match r
    case Ok(v) => Ok(v)
    case Err(e) => Err(f(e))
  }

  /** A quote transfer that keeps the sender alive. */
  function PayQuote(c: Config, quote: map<Account, nat>, from: Account, to: Account, amount: nat)
    : Result<map<Account, nat>, Error>
  {
    match Transfer(quote, from, to, amount, c.existentialDeposit, c.existentialDeposit)
    case Ok(q) => Ok(q)
    case Err(e) => Err(TransferFailed(e))
  }

  function PayTokens(tokens: map<(nat, Account), nat>, id: nat, from: Account, to: Account, amount: nat)
    : Result<map<(nat, Account), nat>, Error>
  {
    match Transfer(tokens, (id, from), (id, to), amount, 0, 1)
    case Ok(t) => Ok(t)
    case Err(e) => Err(TransferFailed(e))
  }

  datatype FeePaid = FeePaid(quote: map<Account, nat>, protocol: nat, treasury: nat)

  /** Whether the treasury part reaches the vault rather than joining the protocol part. */
  predicate SinkTakes(c: Config, quote: map<Account, nat>, treasury: nat, sinkOpen: bool) {
    treasury > 0 && sinkOpen && CanDeposit(quote, Vault, treasury, c.existentialDeposit)
  }

  function PayFeeParts(c: Config, quote: map<Account, nat>, id: nat, split: FeeSplit, sinkOpen: bool)
    : Result<FeePaid, Error>
  {
    var sink := SinkTakes(c, quote, split.treasury, sinkOpen);
    var protocol := if sink then split.protocol else split.protocol + split.treasury;
    var treasury := if sink then split.treasury else 0;
    var q1 :- if protocol > 0 then PayQuote(c, quote, Escrow(id), ProtocolTreasury, protocol) else Ok(quote);
    var q2 :- if sink then PayQuote(c, q1, Escrow(id), Vault, treasury) else Ok(q1);
    Ok(FeePaid(q2, protocol, treasury))
  }

  datatype Moved = Moved(fees: FeePaid, tokens: map<(nat, Account), nat>)

  datatype Bought = Bought(pad: Pad, crossed: bool, tokensOut: U128, quoteUsed: U128, treasuryFee: nat)

  /** Funds of a priced buy: the charge in, the fee parts out, the tokens out. */
  function BuyMoney(c: Config, quote: map<Account, nat>, tokens: map<(nat, Account), nat>, who: Account, id: nat,
                    b: Curve.BuyQuote, split: FeeSplit, sinkOpen: bool): Result<Moved, Error>
  {
    var q1 :- PayQuote(c, quote, who, Escrow(id), b.quoteUsed);
    var paid :- PayFeeParts(c, q1, id, split, sinkOpen);
    var t1 :- PayTokens(tokens, id, Escrow(id), who, b.tokensOut);
    Ok(Moved(paid, t1))
  }

  function BuyRecord(s: CurveState, b: Curve.BuyQuote, creator: nat, protocol: nat, treasury: nat, now: nat,
                     isTrade: bool): CurveState
    requires s.realQuote + b.quoteNetUsed <= U128_MAX && b.tokensOut <= s.tokensRemaining
  {
    var left: U128 := s.tokensRemaining - b.tokensOut;
    s.(creatorFees := SatAdd(s.creatorFees, creator),
       protocolPaid := SatAdd(s.protocolPaid, protocol),
       treasuryPaid := SatAdd(s.treasuryPaid, treasury),
       lastTrade := if isTrade then now else s.lastTrade,
       realQuote := s.realQuote + b.quoteNetUsed,
       tokensRemaining := left,
       phase := if left == 0 then Complete else s.phase,
       completedAt := if left == 0 then Some(now) else s.completedAt)
  }

  function PayHook(p: Pad, who: Account, extra: nat): Result<map<Account, nat>, Error> {
    if extra > 0 then PayQuote(p.config, p.quote, who, ProtocolTreasury, extra) else Ok(p.quote)
  }

  /** A buy up to the point where a crossing one tries its seed. */
  function BuyBeforeSeed(p: Pad, who: Account, id: nat, quoteIn: U128, minTokensOut: nat, isTrade: bool, env: Env)
    : Result<Bought, Error>
  {
    if id !in p.launches || id !in p.curves then Err(LaunchNotFound)
    else
      var launch, s := p.launches[id], p.curves[id];
      if s.phase != Trading then Err(WrongPhase)
      else if quoteIn == 0 then Err(ZeroAmount)
      else if env.hook.None? then Err(HookFailed)
      else
        var (toCurve, extra) := env.hook.value;
        var q0 :- PayHook(p, who, extra);
        var b :- Lift(Curve.QuoteBuy(TermsOf(p.config, launch.curve), CurveOf(s), toCurve), MapMath);
        if b.tokensOut < minTokensOut then Err(SlippageExceeded)
        else
          CurveHistory.BuyFits(TermsOf(p.config, launch.curve), CurveOf(s), toCurve);
          FillBuy(p.(quote := q0), who, id, b, isTrade, env.sinkOpen)
  }

  /** A priced buy, carried out. */
  function FillBuy(p: Pad, who: Account, id: nat, b: Curve.BuyQuote, isTrade: bool, sinkOpen: bool)
    : Result<Bought, Error>
    requires id in p.launches && id in p.curves
    requires p.curves[id].realQuote + b.quoteNetUsed <= U128_MAX && b.tokensOut <= p.curves[id].tokensRemaining
  {
    var curve := p.launches[id].curve;
    var split := SplitFee(b.fee, curve.protocolShareBps, curve.treasuryShareBps);
    var moved :- BuyMoney(p.config, p.quote, p.tokens, who, id, b, split, sinkOpen);
    var s' := BuyRecord(p.curves[id], b, split.creator, moved.fees.protocol, moved.fees.treasury, p.now, isTrade);
    Ok(Bought(p.(curves := p.curves[id := s'], quote := moved.fees.quote, tokens := moved.tokens),
              s'.tokensRemaining == 0, b.tokensOut, b.quoteUsed, moved.fees.treasury))
  }

  /** A buy; when it empties the curve the seed runs nested, and its failure leaves the buy as it is. */
  function Buy(p: Pad, who: Account, id: nat, quoteIn: U128, minTokensOut: nat, isTrade: bool, env: Env)
    : Result<Bought, Error>
  {
    var b :- BuyBeforeSeed(p, who, id, quoteIn, minTokensOut, isTrade, env);
    if !b.crossed then Ok(b)
    else
      match Seed(b.pad, id, env.seeding)
      case Ok(seeded) => Ok(b.(pad := seeded))
      case Err(_) => Ok(b)
  }

  datatype SoldOut = SoldOut(pad: Pad, traded: U128, treasuryFee: nat)

  /** Funds of a priced sell: the tokens in, the fee parts out, the proceeds out. */
  function SellMoney(c: Config, quote: map<Account, nat>, tokens: map<(nat, Account), nat>, who: Account, id: nat,
                     tokensIn: nat, x: Curve.SellQuote, split: FeeSplit, sinkOpen: bool): Result<Moved, Error>
  {
    var t1 :- PayTokens(tokens, id, who, Escrow(id), tokensIn);
    var paid :- PayFeeParts(c, quote, id, split, sinkOpen);
    var q2 :- PayQuote(c, paid.quote, Escrow(id), who, x.quoteOut);
    Ok(Moved(paid.(quote := q2), t1))
  }

  function SellRecord(s: CurveState, tokensIn: U128, x: Curve.SellQuote, creator: nat, protocol: nat, treasury: nat,
                      now: nat): CurveState
    requires x.quoteGross <= s.realQuote && s.tokensRemaining + tokensIn <= U128_MAX
  {
    s.(creatorFees := SatAdd(s.creatorFees, creator),
       protocolPaid := SatAdd(s.protocolPaid, protocol),
       treasuryPaid := SatAdd(s.treasuryPaid, treasury),
       lastTrade := now,
       realQuote := s.realQuote - x.quoteGross,
       tokensRemaining := s.tokensRemaining + tokensIn)
  }

  function Sell(p: Pad, who: Account, id: nat, tokensIn: U128, minQuoteOut: nat, env: Env): Result<SoldOut, Error> {
    if id !in p.launches || id !in p.curves then Err(LaunchNotFound)
    else
      var launch, s := p.launches[id], p.curves[id];
      if s.phase != Trading then Err(WrongPhase)
      else if tokensIn == 0 then Err(ZeroAmount)
      else if tokensIn > SatSub(p.config.sellable, s.tokensRemaining) then Err(SellExceedsSold)
      else PricedSell(p, who, id, tokensIn, minQuoteOut, env.sinkOpen)
  }

  /** A sell that may be made, priced and filled. */
  function PricedSell(p: Pad, who: Account, id: nat, tokensIn: U128, minQuoteOut: nat, sinkOpen: bool)
    : Result<SoldOut, Error>
    requires id in p.launches && id in p.curves
  {
    var launch, s := p.launches[id], p.curves[id];
    var x :- Lift(Curve.QuoteSell(TermsOf(p.config, launch.curve), CurveOf(s), tokensIn), MapMath);
    if x.quoteOut < minQuoteOut then Err(SlippageExceeded)
    else
      CurveHistory.SellFits(TermsOf(p.config, launch.curve), CurveOf(s), tokensIn);
      FillSell(p, who, id, tokensIn, x, sinkOpen)
  }

  /** A priced sell, carried out. */
  function FillSell(p: Pad, who: Account, id: nat, tokensIn: U128, x: Curve.SellQuote, sinkOpen: bool)
    : Result<SoldOut, Error>
    requires id in p.launches && id in p.curves
    requires x.quoteGross <= p.curves[id].realQuote && p.curves[id].tokensRemaining + tokensIn <= U128_MAX
  {
    var curve := p.launches[id].curve;
    var split := SplitFee(x.fee, curve.protocolShareBps, curve.treasuryShareBps);
    var moved :- SellMoney(p.config, p.quote, p.tokens, who, id, tokensIn, x, split, sinkOpen);
    var s' := SellRecord(p.curves[id], tokensIn, x, split.creator, moved.fees.protocol, moved.fees.treasury, p.now);
    Ok(SoldOut(p.(curves := p.curves[id := s'], quote := moved.fees.quote, tokens := moved.tokens), x.quoteGross,
               moved.fees.treasury))
  }

  /** The only path that moves curve funds to the pool, all of them at once. */
  function Seed(p: Pad, id: nat, seeding: Seeding): Result<Pad, Error> {
    if id !in p.launches || id !in p.curves then Err(LaunchNotFound)
    else
      var s, reserved := p.curves[id], p.config.Reserved();
      if s.phase != Complete then Err(WrongPhase)
      else if seeding.SeedRefused? || seeding.shares == 0 || seeding.endowment > p.config.existentialDeposit then
        Err(DexFailed)
      else if Bal(p.quote, Escrow(id)) < s.realQuote + seeding.endowment || Bal(p.tokens, (id, Escrow(id))) < reserved
      then Err(DexFailed)
      else
        Ok(p.(
           quote := Move(p.quote, Escrow(id), Pool(id), s.realQuote + seeding.endowment),
           tokens := Move(p.tokens, (id, Escrow(id)), (id, Pool(id)), reserved),
           curves := p.curves[id := s.(realQuote := 0, lpShares := seeding.shares, phase := Graduated,
                                       graduatedAt := Some(p.now))]))
  }

  function ClaimCreatorFees(p: Pad, who: Account, id: nat): Result<Pad, Error> {
    if id !in p.launches then Err(LaunchNotFound)
    else if who != p.launches[id].feeRecipient then Err(NotFeeRecipient)
    else if id !in p.curves then Err(LaunchNotFound)
    else
      var s := p.curves[id];
      if s.creatorFees == 0 then Err(ZeroAmount)
      else
        var q :- PayQuote(p.config, p.quote, Escrow(id), who, s.creatorFees);
        Ok(p.(curves := p.curves[id := s.(creatorFees := 0)], quote := q))
  }

  function SetFeeRecipient(p: Pad, who: Account, id: nat, to: Account): Result<Pad, Error> {
    if id !in p.launches then Err(LaunchNotFound)
    else if who != p.launches[id].feeRecipient then Err(NotFeeRecipient)
    else Ok(p.(launches := p.launches[id := p.launches[id].(feeRecipient := to)]))
  }

  function SetParams(p: Pad, params: LaunchParams): Result<Pad, Error> {
    if ParamsInBounds(p.config, params) then Ok(p.(params := params)) else Err(ParamsOutOfBounds)
  }

  /** A new launch, before its optional first buy. */
  function Open(p: Pad, creator: Account, recipient: Option<Account>, poolExists: bool): Result<Pad, Error> {
    if p.paused then Err(CreationPaused)
    else if poolExists then Err(PoolAlreadySeeded)
    else if !Seedable(p.params.graduationTarget, p.config.Reserved()) then Err(Unseedable)
    else
      var c, id := p.config, p.nextId;
      var quote :- OpenMoney(c, p.quote, creator, id, p.params.creationFee);
      var launch := Launch(creator, if recipient.Some? then recipient.value else creator, p.now, Snapshot(p.params));
      var s := CurveState(Trading, 0, c.sellable, 0, 0, 0, p.now, None, None, 0);
      Ok(p.(
         nextId := id + 1, launches := p.launches[id := launch], curves := p.curves[id := s], quote := quote,
         tokens := p.tokens[(id, Escrow(id)) := c.totalSupply]))
  }

  /** Funds of a new launch: the fee in, the deposits set aside, all but two minimums on to the protocol. */
  function OpenMoney(c: Config, quote: map<Account, nat>, creator: Account, id: nat, fee: nat)
    : Result<map<Account, nat>, Error>
  {
    var ed := c.existentialDeposit;
    var q1 :- PayQuote(c, quote, creator, Escrow(id), fee);
    if Bal(q1, Escrow(id)) < c.assetDeposits + ed then Err(TransferFailed(InsufficientFunds))
    else
      var q2 := Move(q1, Escrow(id), Deposits(id), c.assetDeposits);
      var spare := SatSub(SatSub(Bal(q2, Escrow(id)), ed), ed);
      if spare > 0 then PayQuote(c, q2, Escrow(id), ProtocolTreasury, spare) else Ok(q2)
  }

  /** A new launch with its optional first buy; a refused first buy refuses the launch. */
  function CreateLaunch(p: Pad, creator: Account, recipient: Option<Account>, poolExists: bool, initialBuy: U128,
                        minTokensOut: nat, env: Env): Result<Pad, Error>
  {
    var launched :- Open(p, creator, recipient, poolExists);
    if initialBuy == 0 then Ok(launched)
    else
      var b :- Buy(launched, creator, p.nextId, initialBuy, minTokensOut, true, env);
      Ok(b.pad)
  }

  /** Governance rescue into a pool that already holds liquidity: what the pool does not take is swept. */
  function ForceSeed(p: Pad, id: nat, maxDeviationBps: nat, poolExists: bool, took: Option<Taken>)
    : Result<Pad, Error>
  {
    if maxDeviationBps > BPS then Err(ParamsOutOfBounds)
    else if id !in p.launches || id !in p.curves then Err(LaunchNotFound)
    else
      var s, reserved := p.curves[id], p.config.Reserved();
      if s.phase != Complete || s.completedAt.None? then Err(WrongPhase)
      else if p.now < s.completedAt.value + p.config.rescueDelay then Err(RescueNotDue)
      else if !poolExists then Err(PoolNotFound)
      else if took.None? then Err(DexFailed)
      else
        var Taken(quoteTaken, tokensTaken, shares) := took.value;
        if !(WithinDeviation(s.realQuote, maxDeviationBps) <= quoteTaken <= s.realQuote)
           || !(WithinDeviation(reserved, maxDeviationBps) <= tokensTaken <= reserved) || shares == 0
           || Bal(p.quote, Escrow(id)) < quoteTaken || Bal(p.tokens, (id, Escrow(id))) < reserved then Err(DexFailed)
        else
          var moved :- RescueMoney(p, id, s.realQuote, reserved, took.value);
          Ok(p.(
             quote := moved.0, tokens := moved.1,
             curves := p.curves[id := s.(realQuote := 0, lpShares := shares, phase := Graduated,
                                         graduatedAt := Some(p.now))]))
  }

  /** Funds of a rescue: what the pool took, and the rest of both deposits to the protocol. */
  function RescueMoney(p: Pad, id: nat, quote: nat, tokens: nat, took: Taken)
    : Result<(map<Account, nat>, map<(nat, Account), nat>), Error>
    requires took.quote <= quote && took.quote <= Bal(p.quote, Escrow(id))
    requires took.tokens <= tokens <= Bal(p.tokens, (id, Escrow(id)))
  {
    var q1 := Move(p.quote, Escrow(id), Pool(id), took.quote);
    var t1 := Move(p.tokens, (id, Escrow(id)), (id, Pool(id)), took.tokens);
    var q2 :- if quote > took.quote then PayQuote(p.config, q1, Escrow(id), ProtocolTreasury, quote - took.quote)
              else Ok(q1);
    var t2 :- if tokens > took.tokens then PayTokens(t1, id, Escrow(id), ProtocolTreasury, tokens - took.tokens)
              else Ok(t1);
    Ok((q2, t2))
  }

  function WithinDeviation(amount: U128, deviationBps: nat): nat
    requires deviationBps <= BPS
  {
    Min(amount * (BPS - deviationBps), U128_MAX) / BPS
  }

  /** Any signer may pay any account, a launch's escrow included. */
  function Pay(p: Pad, from: Account, to: Account, amount: nat): Result<Pad, Error> {
    var q :- PayQuote(p.config, p.quote, from, to, amount);
    Ok(p.(quote := q))
  }
}
