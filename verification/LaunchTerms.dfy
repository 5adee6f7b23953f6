/** A launch's terms: what governance may set, what a launch snapshots, how a fee is split, which trades are free. */
module LaunchTerms {
  import opened Arith
  import opened Results
  import Curve
  import CurveQuotes
  import CurveHistory

  const MINIMUM_LIQUIDITY: nat := 1_000
  const MIN_LAUNCH_FEE_TIER: nat := 3

  /** Live governance parameters. */
  datatype LaunchParams = LaunchParams(
    graduationTarget: U128, curveFeeBps: U128, protocolShareBps: nat, treasuryShareBps: nat, poolFeeTier: nat,
    creationFee: U128)

  /** The terms one launch trades on for ever. */
  datatype CurveParams = CurveParams(
    graduationTarget: U128, virtualQuote: U128, curveFeeBps: U128, protocolShareBps: nat, treasuryShareBps: nat,
    poolFeeTier: nat)

  /** Runtime constants. */
  datatype Config = Config(
    totalSupply: U128, sellable: U128, tokenFloor: U128, existentialDeposit: nat, minGraduationTarget: nat,
    maxGraduationTarget: nat, maxCurveFeeBps: nat, minProtocolShareBps: nat, minCreationFee: nat, freeTradeFee: U128,
    rescueDelay: nat, assetDeposits: nat)
  {
    /** What the runtime binds the constants to satisfy. */
    ghost predicate Valid() {
      && 0 < sellable <= totalSupply
      && 0 < tokenFloor && tokenFloor + sellable <= U128_MAX
      && 3 <= minGraduationTarget
      && maxCurveFeeBps < BPS
      && 0 < existentialDeposit
      && 2 * existentialDeposit + assetDeposits <= minCreationFee
    }

    function Reserved(): nat {
      SatSub(totalSupply, sellable)
    }
  }

  predicate ParamsInBounds(c: Config, p: LaunchParams) {
    && c.minGraduationTarget <= p.graduationTarget <= c.maxGraduationTarget
    && p.curveFeeBps <= c.maxCurveFeeBps
    && c.minProtocolShareBps <= p.protocolShareBps + p.treasuryShareBps <= BPS
    && (p.poolFeeTier == 3 || p.poolFeeTier == 10) && p.poolFeeTier >= MIN_LAUNCH_FEE_TIER
    && p.creationFee >= c.minCreationFee
  }

  function Snapshot(p: LaunchParams): CurveParams {
    CurveParams(p.graduationTarget, p.graduationTarget / 3, p.curveFeeBps, p.protocolShareBps, p.treasuryShareBps,
                p.poolFeeTier)
  }

  function TermsOf(c: Config, p: CurveParams): Curve.Terms {
    Curve.Terms(p.virtualQuote, c.tokenFloor, p.curveFeeBps)
  }

  /** The first pool deposit must mint more than the pool burns: `isqrt(target * reserved) > minimum`. */
  predicate Seedable(target: nat, reserved: nat) {
    (MINIMUM_LIQUIDITY + 1) * (MINIMUM_LIQUIDITY + 1) <= target * reserved
  }

  // ---- fee split ----------------------------------------------------------

  datatype FeeSplit = FeeSplit(protocol: nat, treasury: nat, creator: nat)

  /** One share of a fee, rounded down; the product saturates at 128 bits. */
  function ShareOf(fee: U128, shareBps: nat): nat {
    Min(fee * shareBps, U128_MAX) / BPS
  }

  function SplitFee(fee: U128, protocolShareBps: nat, treasuryShareBps: nat): (r: FeeSplit)
    requires protocolShareBps + treasuryShareBps <= BPS
    ensures r.protocol + r.treasury + r.creator == fee
  {
    SharesFit(fee, protocolShareBps, treasuryShareBps);
    var protocol, treasury := ShareOf(fee, protocolShareBps), ShareOf(fee, treasuryShareBps);
    FeeSplit(protocol, treasury, fee - protocol - treasury)
  }

  /** Two shares of at most the whole never take more than the whole fee. */
  lemma SharesFit(fee: U128, a: nat, b: nat)
    requires a + b <= BPS
    ensures ShareOf(fee, a) + ShareOf(fee, b) <= fee
  {
    MulMono(a + b, BPS, fee);
    assert fee * (a + b) == fee * a + fee * b;
  }

  /** The smallest free trade, or none when no trade on the launch can be free. */
  function FreeTradeThreshold(c: Config, p: CurveParams): Option<U128> {
    var nonCreator := Min(p.protocolShareBps + p.treasuryShareBps, BPS);
    var denom := p.curveFeeBps * nonCreator;
    if denom == 0 then None
    else
      var t := CeilDiv(c.freeTradeFee * (BPS * BPS), denom);
      if t <= U128_MAX then Some(t) else None
  }

  /** Whether a successful trade of `traded` quote, gross of its fee, is free. */
  predicate IsFree(c: Config, p: CurveParams, traded: U128) {
    FreeTradeThreshold(c, p).Some? && FreeTradeThreshold(c, p).value <= traded
  }

  /** A trade is free exactly when its rate on what was traded, times the shares the creator does not get, covers the
      fee it skips. */
  lemma FreeMeans(c: Config, p: CurveParams, traded: U128)
    requires p.protocolShareBps + p.treasuryShareBps <= BPS
    ensures IsFree(c, p, traded) <==>
            && 0 < p.curveFeeBps * (p.protocolShareBps + p.treasuryShareBps)
            && c.freeTradeFee * (BPS * BPS) <= traded * (p.curveFeeBps * (p.protocolShareBps + p.treasuryShareBps))
  {
    var denom := p.curveFeeBps * (p.protocolShareBps + p.treasuryShareBps);
    if denom > 0 {
      CeilIff(c.freeTradeFee * (BPS * BPS), denom, traded);
    }
  }

  /** The fee of a successful buy is at least its rate on what was charged, crossing or not. */
  lemma BuyFeeIsAtLeastRate(t: Curve.Terms, s: Curve.State, q: U128)
    requires Curve.QuoteBuy(t, s, q).Ok?
    ensures var b := Curve.QuoteBuy(t, s, q).value; b.quoteUsed * t.feeBps <= b.fee * BPS
  {
    CurveQuotes.BuyIsOutcome(t, s, q);
    var net := CurveQuotes.NetOf(q, t.feeBps);
    if CurveQuotes.Empties(t, s, net) {
      CrossingRate(t, s, q);
    } else {
      NetRate(q, t.feeBps);
    }
  }

  lemma CrossingRate(t: Curve.Terms, s: Curve.State, q: U128)
    requires t.feeBps < BPS && Curve.Priceable(t, s) && s.tokensRemaining > 0
    requires CurveQuotes.Empties(t, s, CurveQuotes.NetOf(q, t.feeBps))
    ensures var b := CurveQuotes.CrossingFill(t, s, q); b.quoteUsed * t.feeBps <= b.fee * BPS
  {
    CurveQuotes.EmptiesNeedsFloor(t, s, CurveQuotes.NetOf(q, t.feeBps));
    CurveQuotes.NetToFloorIff(t, s, CurveQuotes.NetOf(q, t.feeBps));
    GrossRate(CurveQuotes.NetToFloor(t, s), t.feeBps);
  }

  lemma NetRate(amount: U128, f: U128)
    requires f < BPS
    ensures amount * f <= (amount - CurveQuotes.NetOf(amount, f)) * BPS
  {
    CurveQuotes.FeeLeavesNet(amount, f);
    CeilBounds(amount * f, BPS);
  }

  lemma GrossRate(net: nat, f: nat)
    requires f < BPS
    ensures CurveQuotes.GrossFor(net, f) * f <= (CurveQuotes.GrossFor(net, f) - net) * BPS
  {
    var fee := CeilDiv(net * f, BPS - f);
    CeilBounds(net * f, BPS - f);
    assert (net + fee) * f == net * f + fee * f;
    assert fee * (BPS - f) == fee * BPS - fee * f;
  }

  /** The fee of a successful sell is at least its rate on the gross, and its product fits 128 bits. */
  lemma SellFeeIsAtLeastRate(t: Curve.Terms, s: Curve.State, x: U128)
    requires Curve.QuoteSell(t, s, x).Ok?
    ensures var r := Curve.QuoteSell(t, s, x).value;
            r.quoteGross * t.feeBps <= r.fee * BPS && r.quoteGross * t.feeBps <= U128_MAX
  {
    CurveQuotes.SellIsOutcome(t, s, x);
    NetRate(CurveQuotes.GrossOut(t, s, x), t.feeBps);
  }

  /**
   A free trade costs what it skips: with a fee of at least its rate, the parts its creator does not get back
   total at least the fee skipped, less one unit for the two roundings, and no less when one share is zero.
   */
  lemma FreeTradeCosts(c: Config, p: CurveParams, traded: U128, fee: U128)
    requires p.protocolShareBps + p.treasuryShareBps <= BPS && IsFree(c, p, traded)
    requires traded * p.curveFeeBps <= fee * BPS && traded * p.curveFeeBps <= U128_MAX
    ensures var split := SplitFee(fee, p.protocolShareBps, p.treasuryShareBps);
            && c.freeTradeFee <= split.protocol + split.treasury + 1
            && (p.protocolShareBps == 0 || p.treasuryShareBps == 0 ==>
                  c.freeTradeFee <= split.protocol + split.treasury)
  {
    var a, b, skip := p.protocolShareBps, p.treasuryShareBps, c.freeTradeFee;
    var n := traded * p.curveFeeBps;
    FreeMeans(c, p, traded);
    assert traded * (p.curveFeeBps * (a + b)) == n * (a + b);
    SkipFits(n, a + b, skip);
    SharesCover(fee, a, b, n, skip);
    TwoFloors(fee * a, fee * b, skip);
  }

  lemma SkipFits(n: nat, shares: nat, skip: nat)
    requires shares <= BPS && n <= U128_MAX && skip * (BPS * BPS) <= n * shares
    ensures skip * BPS <= U128_MAX
  {
    MulMono(shares, BPS, n);
    assert skip * (BPS * BPS) == skip * BPS * BPS;
    MulCancel(skip * BPS, n, BPS);
  }

  /** Two parts, each rounded down, reach what their sum does, less one unit; one part alone loses nothing. */
  lemma TwoFloors(x: nat, y: nat, skip: nat)
    requires skip * BPS <= x + y && skip * BPS <= U128_MAX
    ensures skip <= Min(x, U128_MAX) / BPS + Min(y, U128_MAX) / BPS + 1
    ensures x == 0 || y == 0 ==> skip <= Min(x, U128_MAX) / BPS + Min(y, U128_MAX) / BPS
  {
  }

  lemma SharesCover(fee: nat, a: nat, b: nat, n: nat, skip: nat)
    requires skip * (BPS * BPS) <= n * (a + b) && n <= fee * BPS
    ensures skip * BPS <= fee * a + fee * b
  {
    MulMono(n, fee * BPS, a + b);
    assert fee * BPS * (a + b) == (fee * a + fee * b) * BPS;
  }

  /** No successful buy is free for less than the fee it skips less one unit, not even to the launch's own creator. */
  lemma FreeBuyCosts(c: Config, p: CurveParams, s: Curve.State, q: U128)
    requires p.protocolShareBps + p.treasuryShareBps <= BPS
    requires Curve.QuoteBuy(TermsOf(c, p), s, q).Ok?
    requires IsFree(c, p, Curve.QuoteBuy(TermsOf(c, p), s, q).value.quoteUsed)
    ensures var split := SplitFee(Curve.QuoteBuy(TermsOf(c, p), s, q).value.fee, p.protocolShareBps,
                                  p.treasuryShareBps);
            && c.freeTradeFee <= split.protocol + split.treasury + 1
            && (p.protocolShareBps == 0 || p.treasuryShareBps == 0 ==>
                  c.freeTradeFee <= split.protocol + split.treasury)
  {
    var b := Curve.QuoteBuy(TermsOf(c, p), s, q).value;
    CurveHistory.BuyFits(TermsOf(c, p), s, q);
    BuyFeeIsAtLeastRate(TermsOf(c, p), s, q);
    MulMono(b.quoteUsed, Curve.MAX_TRADE_IN, p.curveFeeBps);
    MulMono(p.curveFeeBps, BPS, Curve.MAX_TRADE_IN);
    FreeTradeCosts(c, p, b.quoteUsed, b.fee);
  }

  lemma FreeSellCosts(c: Config, p: CurveParams, s: Curve.State, x: U128)
    requires p.protocolShareBps + p.treasuryShareBps <= BPS
    requires Curve.QuoteSell(TermsOf(c, p), s, x).Ok?
    requires IsFree(c, p, Curve.QuoteSell(TermsOf(c, p), s, x).value.quoteGross)
    ensures var split := SplitFee(Curve.QuoteSell(TermsOf(c, p), s, x).value.fee, p.protocolShareBps,
                                  p.treasuryShareBps);
            && c.freeTradeFee <= split.protocol + split.treasury + 1
            && (p.protocolShareBps == 0 || p.treasuryShareBps == 0 ==>
                  c.freeTradeFee <= split.protocol + split.treasury)
  {
    SellFeeIsAtLeastRate(TermsOf(c, p), s, x);
    var r := Curve.QuoteSell(TermsOf(c, p), s, x).value;
    FreeTradeCosts(c, p, r.quoteGross, r.fee);
  }
}
