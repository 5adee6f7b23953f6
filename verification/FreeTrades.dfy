/** Exactly which launch terms make every free trade pay for the fee it skips. */
module FreeTrades {
  import opened Arith
  import opened Results
  import opened Curve
  import opened CurveQuotes
  import opened LaunchTerms

  /** The curve's fee on `traded`, rounded up: the fee of every successful trade, whichever way it was reached. */
  function FeeFor(traded: U128, feeBps: nat): U128
    requires feeBps < BPS
  {
    MulDivAtMost(traded, BPS - feeBps, BPS);
    traded - NetOf(traded, feeBps)
  }

  /** The parts of that fee its payer never gets back, creator or not. */
  function PartsOf(p: CurveParams, traded: U128): nat
    requires p.curveFeeBps < BPS
  {
    var fee := FeeFor(traded, p.curveFeeBps);
    ShareOf(fee, p.protocolShareBps) + ShareOf(fee, p.treasuryShareBps)
  }

  /** The least free trade that leaves anything after its fee. */
  function LeastFree(c: Config, p: CurveParams): Option<U128>
    requires p.curveFeeBps < BPS
  {
    match FreeTradeThreshold(c, p)
    case None => None
    case Some(t) =>
      CeilIff(p.curveFeeBps, BPS - p.curveFeeBps, BPS);
      MulMono(1, BPS - p.curveFeeBps, BPS);
      Some(if t < GrossFor(1, p.curveFeeBps) then GrossFor(1, p.curveFeeBps) else t)
  }

  // ---- the fee of a trade is a function of what was traded -----------------------------

  /** The net of a grossed-up amount is that amount: nothing is left over by the inverse rounding. */
  lemma NetOfGross(net: nat, feeBps: nat)
    requires feeBps < BPS
    ensures NetOf(GrossFor(net, feeBps), feeBps) == net
  {
    var gross := GrossFor(net, feeBps);
    GrossIsThreshold(net, feeBps, gross);
    GrossIsThreshold(net + 1, feeBps, gross);
    CeilMono(net * feeBps, (net + 1) * feeBps, BPS - feeBps);
  }

  /** A buy's fee is the one its charge calls for, crossing or not. */
  lemma BuyFeeIs(t: Terms, s: State, q: U128)
    requires QuoteBuy(t, s, q).Ok?
    ensures t.feeBps < BPS
    ensures var b := QuoteBuy(t, s, q).value;
            && b.fee == FeeFor(b.quoteUsed, t.feeBps) && b.quoteUsed <= q <= MAX_TRADE_IN
            && 0 < NetOf(b.quoteUsed, t.feeBps)
  {
    BuyIsOutcome(t, s, q);
    var net := NetOf(q, t.feeBps);
    if Empties(t, s, net) {
      EmptiesNeedsFloor(t, s, net);
      NetToFloorIff(t, s, net);
      GrossIsThreshold(NetToFloor(t, s), t.feeBps, q);
      NetOfGross(NetToFloor(t, s), t.feeBps);
    }
  }

  lemma SellFeeIs(t: Terms, s: State, x: U128)
    requires QuoteSell(t, s, x).Ok?
    ensures t.feeBps < BPS
    ensures var r := QuoteSell(t, s, x).value;
            && r.fee == FeeFor(r.quoteGross, t.feeBps) && r.quoteGross * t.feeBps <= U128_MAX
            && 0 < NetOf(r.quoteGross, t.feeBps)
  {
    SellIsOutcome(t, s, x);
  }

  lemma FeeForMono(a: U128, b: U128, feeBps: nat)
    requires feeBps < BPS && a <= b
    ensures FeeFor(a, feeBps) <= FeeFor(b, feeBps)
  {
    FeeLeavesNet(a, feeBps);
    FeeLeavesNet(b, feeBps);
    MulMono(a, b, feeBps);
    CeilMono(a * feeBps, b * feeBps, BPS);
  }

  lemma ShareMono(fee: U128, fee': U128, shareBps: nat)
    requires fee <= fee'
    ensures ShareOf(fee, shareBps) <= ShareOf(fee', shareBps)
  {
    MulMono(fee, fee', shareBps);
    FloorMono(Min(fee * shareBps, U128_MAX), Min(fee' * shareBps, U128_MAX), BPS);
  }

  lemma PartsMono(p: CurveParams, a: U128, b: U128)
    requires p.curveFeeBps < BPS && a <= b
    ensures PartsOf(p, a) <= PartsOf(p, b)
  {
    FeeForMono(a, b, p.curveFeeBps);
    ShareMono(FeeFor(a, p.curveFeeBps), FeeFor(b, p.curveFeeBps), p.protocolShareBps);
    ShareMono(FeeFor(a, p.curveFeeBps), FeeFor(b, p.curveFeeBps), p.treasuryShareBps);
  }

  /** A trade that is free and leaves something is at least the least one. */
  lemma LeastFreeIsLeast(c: Config, p: CurveParams, traded: U128)
    requires p.curveFeeBps < BPS
    ensures IsFree(c, p, traded) && 0 < NetOf(traded, p.curveFeeBps)
            <==> LeastFree(c, p).Some? && LeastFree(c, p).value <= traded
  {
    GrossIsThreshold(1, p.curveFeeBps, traded);
  }

  // ---- buys ------------------------------------------------------------------------------

  /** A free buy pays protocol and treasury at least the fee it skips. */
  predicate FreeBuyPays(c: Config, p: CurveParams, s: State, q: U128)
    requires p.protocolShareBps + p.treasuryShareBps <= BPS
  {
    var b := QuoteBuy(TermsOf(c, p), s, q);
    b.Ok? && IsFree(c, p, b.value.quoteUsed) ==>
      var split := SplitFee(b.value.fee, p.protocolShareBps, p.treasuryShareBps);
      c.freeTradeFee <= split.protocol + split.treasury
  }

  /** The terms' own answer for buys: the least free one, if a buy can be that large, pays in full. */
  predicate BuyTermsPay(c: Config, p: CurveParams)
    requires p.curveFeeBps < BPS
  {
    LeastFree(c, p).Some? && LeastFree(c, p).value <= MAX_TRADE_IN ==>
      c.freeTradeFee <= PartsOf(p, LeastFree(c, p).value)
  }

  lemma BuyTermsSuffice(c: Config, p: CurveParams, s: State, q: U128)
    requires p.protocolShareBps + p.treasuryShareBps <= BPS && p.curveFeeBps < BPS && BuyTermsPay(c, p)
    ensures FreeBuyPays(c, p, s, q)
  {
    var b := QuoteBuy(TermsOf(c, p), s, q);
    if b.Ok? && IsFree(c, p, b.value.quoteUsed) {
      BuyFeeIs(TermsOf(c, p), s, q);
      LeastFreeIsLeast(c, p, b.value.quoteUsed);
      PartsMono(p, LeastFree(c, p).value, b.value.quoteUsed);
    }
  }

  /** In any one state, a fresh launch's or any other, where a buy can charge just that: every free buy there pays for
      the fee it skips exactly when the terms do. */
  lemma FreeBuysPayHereIff(c: Config, p: CurveParams, s: State)
    requires p.protocolShareBps + p.treasuryShareBps <= BPS && p.curveFeeBps < BPS && LeastFree(c, p).Some?
    requires var b := QuoteBuy(TermsOf(c, p), s, LeastFree(c, p).value);
             b.Ok? && b.value.quoteUsed == LeastFree(c, p).value
    ensures (forall q: U128 :: FreeBuyPays(c, p, s, q)) <==> BuyTermsPay(c, p)
  {
    var least := LeastFree(c, p).value;
    if BuyTermsPay(c, p) {
      forall q: U128
        ensures FreeBuyPays(c, p, s, q)
      {
        BuyTermsSuffice(c, p, s, q);
      }
    } else {
      LeastFreeIsLeast(c, p, least);
      BuyFeeIs(TermsOf(c, p), s, least);
      assert !FreeBuyPays(c, p, s, least);
    }
  }

  /** A deep curve on the terms, on which a normal buy of `q` is quotable. */
  function BuyState(t: Terms, q: U128): State
    requires t.feeBps < BPS && t.virtualQuote + q <= U128_MAX && t.tokenFloor + q < U128_MAX
  {
    MulDivAtMost(q, BPS - t.feeBps, BPS);
    State(U128_MAX - t.virtualQuote - NetOf(q, t.feeBps), U128_MAX - t.tokenFloor)
  }

  lemma BuyStateQuotes(t: Terms, q: U128)
    requires t.feeBps < BPS && t.virtualQuote + q <= U128_MAX && t.tokenFloor + q < U128_MAX
    requires q <= MAX_TRADE_IN && 0 < NetOf(q, t.feeBps)
    ensures QuoteBuy(t, BuyState(t, q), q).Ok? && QuoteBuy(t, BuyState(t, q), q).value.quoteUsed == q
  {
    var s, net := BuyState(t, q), NetOf(q, t.feeBps);
    MulDivAtMost(q, BPS - t.feeBps, BPS);
    BuyIsOutcome(t, s, q);
    assert QuoteSide(t, s) + net == U128_MAX && TokenSide(t, s) == U128_MAX;
    assert K(t, s) == (U128_MAX - net) * U128_MAX;
    MulMono(U128_MAX - net, U128_MAX - 1, U128_MAX);
    MulStrict(t.tokenFloor, U128_MAX - net, U128_MAX);
  }

  /** Every free buy on a launch, in every state of its curve, pays for the fee it skips exactly when the least free one
      does: a fact about the launch's terms. */
  lemma FreeBuysPayIff(c: Config, p: CurveParams)
    requires p.protocolShareBps + p.treasuryShareBps <= BPS && p.curveFeeBps < BPS
    requires p.virtualQuote + MAX_TRADE_IN <= U128_MAX && c.tokenFloor + MAX_TRADE_IN < U128_MAX
    ensures (forall s: State, q: U128 :: FreeBuyPays(c, p, s, q)) <==> BuyTermsPay(c, p)
  {
    if BuyTermsPay(c, p) {
      forall s: State, q: U128
        ensures FreeBuyPays(c, p, s, q)
      {
        BuyTermsSuffice(c, p, s, q);
      }
    } else {
      var q := LeastFree(c, p).value;
      var t := TermsOf(c, p);
      LeastFreeIsLeast(c, p, q);
      BuyStateQuotes(t, q);
      BuyFeeIs(t, BuyState(t, q), q);
      assert !FreeBuyPays(c, p, BuyState(t, q), q);
    }
  }

  // ---- sells -----------------------------------------------------------------------------

  predicate FreeSellPays(c: Config, p: CurveParams, s: State, x: U128)
    requires p.protocolShareBps + p.treasuryShareBps <= BPS
  {
    var r := QuoteSell(TermsOf(c, p), s, x);
    r.Ok? && IsFree(c, p, r.value.quoteGross) ==>
      var split := SplitFee(r.value.fee, p.protocolShareBps, p.treasuryShareBps);
      c.freeTradeFee <= split.protocol + split.treasury
  }

  /** The same for sells, whose fee must fit its 128-bit product. */
  predicate SellTermsPay(c: Config, p: CurveParams)
    requires p.curveFeeBps < BPS
  {
    LeastFree(c, p).Some? && LeastFree(c, p).value * p.curveFeeBps <= U128_MAX ==>
      c.freeTradeFee <= PartsOf(p, LeastFree(c, p).value)
  }

  lemma SellTermsSuffice(c: Config, p: CurveParams, s: State, x: U128)
    requires p.protocolShareBps + p.treasuryShareBps <= BPS && p.curveFeeBps < BPS && SellTermsPay(c, p)
    ensures FreeSellPays(c, p, s, x)
  {
    var r := QuoteSell(TermsOf(c, p), s, x);
    if r.Ok? && IsFree(c, p, r.value.quoteGross) {
      SellFeeIs(TermsOf(c, p), s, x);
      LeastFreeIsLeast(c, p, r.value.quoteGross);
      MulMono(LeastFree(c, p).value, r.value.quoteGross, p.curveFeeBps);
      PartsMono(p, LeastFree(c, p).value, r.value.quoteGross);
    }
  }

  /** In any one state where some sell takes just that out: every free sell there pays exactly when the terms do. */
  lemma FreeSellsPayHereIff(c: Config, p: CurveParams, s: State, x: U128)
    requires p.protocolShareBps + p.treasuryShareBps <= BPS && p.curveFeeBps < BPS && LeastFree(c, p).Some?
    requires var r := QuoteSell(TermsOf(c, p), s, x); r.Ok? && r.value.quoteGross == LeastFree(c, p).value
    ensures (forall y: U128 :: FreeSellPays(c, p, s, y)) <==> SellTermsPay(c, p)
  {
    if SellTermsPay(c, p) {
      forall y: U128
        ensures FreeSellPays(c, p, s, y)
      {
        SellTermsSuffice(c, p, s, y);
      }
    } else {
      LeastFreeIsLeast(c, p, LeastFree(c, p).value);
      SellFeeIs(TermsOf(c, p), s, x);
      assert !FreeSellPays(c, p, s, x);
    }
  }

  /** A deep curve on the terms, on which selling `g` tokens takes exactly `g` out. */
  function SellState(t: Terms, g: U128): State
    requires t.tokenFloor + g <= U128_MAX
  {
    State(U128_MAX - t.virtualQuote, U128_MAX - t.tokenFloor - g)
  }

  lemma SellStateQuotes(t: Terms, g: U128)
    requires t.feeBps < BPS && t.virtualQuote + g <= U128_MAX && t.tokenFloor + g < U128_MAX
    requires g * t.feeBps <= U128_MAX && 0 < NetOf(g, t.feeBps)
    ensures QuoteSell(t, SellState(t, g), g).Ok? && QuoteSell(t, SellState(t, g), g).value.quoteGross == g
  {
    var s := SellState(t, g);
    MulDivAtMost(g, BPS - t.feeBps, BPS);
    SellIsOutcome(t, s, g);
    assert K(t, s) == U128_MAX * (U128_MAX - g);
    assert CeilDiv(U128_MAX * (U128_MAX - g), U128_MAX) == U128_MAX - g;
  }

  /** Every free sell on a launch, in every state of its curve, pays for the fee it skips exactly when the terms do. */
  lemma FreeSellsPayIff(c: Config, p: CurveParams)
    requires p.protocolShareBps + p.treasuryShareBps <= BPS && p.curveFeeBps < BPS
    requires var least := LeastFree(c, p);
             least.Some? ==> p.virtualQuote + least.value <= U128_MAX && c.tokenFloor + least.value < U128_MAX
    ensures (forall s: State, x: U128 :: FreeSellPays(c, p, s, x)) <==> SellTermsPay(c, p)
  {
    if SellTermsPay(c, p) {
      forall s: State, x: U128
        ensures FreeSellPays(c, p, s, x)
      {
        SellTermsSuffice(c, p, s, x);
      }
    } else {
      var g := LeastFree(c, p).value;
      var t := TermsOf(c, p);
      LeastFreeIsLeast(c, p, g);
      SellStateQuotes(t, g);
      SellFeeIs(t, SellState(t, g), g);
      assert !FreeSellPays(c, p, SellState(t, g), g);
    }
  }

  // ---- terms that do not pay -----------------------------------------------------------------

  const EXAMPLE_CONFIG := Config(10_000, 1_000, 1_000, 1, 3, 10_000, 500, 5_000, 10, 1, 10, 2)
  const EXAMPLE_PARAMS := LaunchParams(3_000, 100, 2_500, 2_500, 3, 10)

  /** Terms governance may set, on which the condition fails: a fresh launch's buy of 200 is free, and of its fee of two
      units neither quarter share is one. */
  lemma FreeTradeCanCostOneLess()
    ensures EXAMPLE_CONFIG.Valid() && ParamsInBounds(EXAMPLE_CONFIG, EXAMPLE_PARAMS)
    ensures var c, p := EXAMPLE_CONFIG, Snapshot(EXAMPLE_PARAMS);
            && !BuyTermsPay(c, p) && !SellTermsPay(c, p)
            && !FreeBuyPays(c, p, State(0, c.sellable), 200)
  {
    var c, p := EXAMPLE_CONFIG, Snapshot(EXAMPLE_PARAMS);
    assert FreeTradeThreshold(c, p) == Some(200);
    assert QuoteBuy(TermsOf(c, p), State(0, 1_000), 200) == Ok(BuyQuote(330, 200, 198, 2, false));
    assert NetOf(200, 100) == 198;
    assert GrossFor(1, 100) == 2;
  }
}
