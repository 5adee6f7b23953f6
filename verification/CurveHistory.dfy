/** What no history of trades can do to the curve: take quote out of it, or sell it out for less than it advertised. */
module CurveHistory {
  import opened Arith
  import opened Results
  import opened Curve
  import opened CurveQuotes

  /** A normal fill keeps `k` and adds less than one token of rounding; it leaves tokens on the curve. */
  lemma PartialBuyKeepsK(t: Terms, s: State, qIn: U128)
    requires QuoteBuy(t, s, qIn).Ok? && !QuoteBuy(t, s, qIn).value.crossed
    ensures var b := QuoteBuy(t, s, qIn).value;
            && 0 < b.tokensOut < s.tokensRemaining
            && b.quoteUsed == qIn == b.quoteNetUsed + b.fee
            && 0 < b.quoteNetUsed == NetOf(qIn, t.feeBps)
            && s.realQuote + b.quoteNetUsed <= U128_MAX
            && var s' := AfterBuy(s, b);
            && Priceable(t, s')
            && K(t, s) <= K(t, s') < K(t, s) + QuoteSide(t, s')
  {
    BuyIsOutcome(t, s, qIn);
    PartialRounds(t, s, NetOf(qIn, t.feeBps));
    MulDivAtMost(qIn, BPS - t.feeBps, BPS);
  }

  /** The new token side of a normal fill, on the reserves alone. */
  lemma PartialRounds(t: Terms, s: State, net: nat)
    requires Priceable(t, s) && Delivers(t, s, net) && !Empties(t, s, net)
    ensures var q := QuoteSide(t, s) + net;
            var tk := CeilDiv(K(t, s), q);
            && t.tokenFloor < tk < TokenSide(t, s)
            && K(t, s) <= q * tk < K(t, s) + q
  {
    var q := QuoteSide(t, s) + net;
    CeilBounds(K(t, s), q);
    CeilIff(K(t, s), q, TokenSide(t, s) - 1);
    CeilIff(K(t, s), q, t.tokenFloor);
  }

  /** A crossing fill keeps `k`, empties the curve, and charges the least quote that does. */
  lemma CrossingBuyKeepsK(t: Terms, s: State, qIn: U128)
    requires QuoteBuy(t, s, qIn).Ok? && QuoteBuy(t, s, qIn).value.crossed
    ensures var b := QuoteBuy(t, s, qIn).value;
            && 0 < b.tokensOut == s.tokensRemaining
            && b.quoteUsed == b.quoteNetUsed + b.fee <= qIn
            && 0 < b.quoteNetUsed
            && s.realQuote + b.quoteNetUsed <= U128_MAX
            && var s' := AfterBuy(s, b);
            && Priceable(t, s')
            && K(t, s) <= K(t, s') < K(t, s) + TokenSide(t, s')
  {
    BuyIsOutcome(t, s, qIn);
    var net := NetOf(qIn, t.feeBps);
    EmptiesNeedsFloor(t, s, net);
    NetToFloorIff(t, s, net);
    GrossIsThreshold(NetToFloor(t, s), t.feeBps, qIn);
    CeilBounds(K(t, s), t.tokenFloor);
    var s' := AfterBuy(s, QuoteBuy(t, s, qIn).value);
    assert K(t, s') == CeilDiv(K(t, s), t.tokenFloor) * t.tokenFloor;
  }

  /** The drift of a crossing fill is below the new quote side as well exactly when one token less than the floor, at
      the rounded-up cost of a token, is still within `k`. */
  lemma CrossingDriftIff(t: Terms, s: State, qIn: U128)
    requires QuoteBuy(t, s, qIn).Ok? && QuoteBuy(t, s, qIn).value.crossed
    ensures t.tokenFloor > 0
    ensures var s' := AfterCrossing(t, s, qIn);
            && QuoteSide(t, s') == CeilDiv(K(t, s), t.tokenFloor)
            && (K(t, s') < K(t, s) + QuoteSide(t, s')
                <==> (t.tokenFloor - 1) * CeilDiv(K(t, s), t.tokenFloor) < K(t, s))
  {
    CrossingEnds(t, s, qIn);
    DriftArith(K(t, s), t.tokenFloor, CeilDiv(K(t, s), t.tokenFloor));
  }

  lemma DriftArith(k: nat, floor: nat, end: nat)
    requires 0 < floor
    ensures end * floor < k + end <==> (floor - 1) * end < k
  {
    assert end * floor == (floor - 1) * end + end;
  }

  /** A crossing fill ends at the floor, and at the least quote side that keeps `k` there. */
  lemma CrossingEnds(t: Terms, s: State, qIn: U128)
    requires QuoteBuy(t, s, qIn).Ok? && QuoteBuy(t, s, qIn).value.crossed
    ensures t.tokenFloor > 0 && TokenSide(t, AfterCrossing(t, s, qIn)) == t.tokenFloor
    ensures QuoteSide(t, AfterCrossing(t, s, qIn)) == CeilDiv(K(t, s), t.tokenFloor)
  {
    BuyIsOutcome(t, s, qIn);
    EmptiesNeedsFloor(t, s, NetOf(qIn, t.feeBps));
    NetToFloorIff(t, s, NetOf(qIn, t.feeBps));
  }

  /** The curve a crossing buy leaves. */
  function AfterCrossing(t: Terms, s: State, qIn: U128): State
    requires QuoteBuy(t, s, qIn).Ok? && QuoteBuy(t, s, qIn).value.crossed
  {
    CrossingBuyKeepsK(t, s, qIn);
    AfterBuy(s, QuoteBuy(t, s, qIn).value)
  }

  const STEEP: Terms := Terms(1, 1_000, 0)

  /** One token left above a floor of a thousand: emptying the curve takes `k` from 1_001 to 2_000, and the new quote
      side is two. */
  lemma CrossingDriftExample()
    ensures QuoteBuy(STEEP, State(0, 1), 10).Ok? && QuoteBuy(STEEP, State(0, 1), 10).value.crossed
    ensures var s' := AfterCrossing(STEEP, State(0, 1), 10);
            QuoteSide(STEEP, s') == 2 && K(STEEP, State(0, 1)) == 1_001 && K(STEEP, s') == 2_000
  {
    assert QuoteBuy(STEEP, State(0, 1), 10) == Ok(BuyQuote(1, 1, 1, 0, true));
  }

  /**
   A crossing charge is exactly the threshold: from it up to the offer every offer gets the same fill, and
   no smaller offer crosses.
   */
  lemma CrossingIsThreshold(t: Terms, s: State, qIn: U128, offer: U128)
    requires QuoteBuy(t, s, qIn).Ok? && QuoteBuy(t, s, qIn).value.crossed
    ensures QuoteBuy(t, s, qIn).value.quoteUsed <= offer <= qIn ==> QuoteBuy(t, s, offer) == QuoteBuy(t, s, qIn)
    ensures offer < QuoteBuy(t, s, qIn).value.quoteUsed && QuoteBuy(t, s, offer).Ok? ==>
              !QuoteBuy(t, s, offer).value.crossed
  {
    BuyIsOutcome(t, s, qIn);
    BuyIsOutcome(t, s, offer);
    var net := NetOf(qIn, t.feeBps);
    EmptiesNeedsFloor(t, s, net);
    NetToFloorIff(t, s, net);
    var cost: nat := NetToFloor(t, s);
    GrossIsThreshold(cost, t.feeBps, offer);
    NetToFloorIff(t, s, NetOf(offer, t.feeBps));
    if QuoteBuy(t, s, qIn).value.quoteUsed <= offer <= qIn {
      MulMono(offer, qIn, BPS - t.feeBps);
      FloorMono(offer * (BPS - t.feeBps), qIn * (BPS - t.feeBps), BPS);
      EmptyingDelivers(t, s, NetOf(offer, t.feeBps));
    }
  }

  lemma EmptyingDelivers(t: Terms, s: State, net: nat)
    requires s.tokensRemaining > 0 && Empties(t, s, net)
    ensures Delivers(t, s, net)
  {
    MulMono(t.tokenFloor, TokenSide(t, s) - 1, QuoteSide(t, s) + net);
  }

  /** A sell keeps `k` and never pays more than the curve holds. */
  lemma SellKeepsK(t: Terms, s: State, tIn: U128)
    requires QuoteSell(t, s, tIn).Ok?
    ensures var x := QuoteSell(t, s, tIn).value;
            && 0 < x.quoteGross <= s.realQuote
            && 0 < x.quoteOut == x.quoteGross - x.fee == NetOf(x.quoteGross, t.feeBps)
            && TokenSide(t, s) + tIn <= U128_MAX
            && var s' := AfterSell(s, tIn, x);
            && Priceable(t, s')
            && K(t, s) <= K(t, s')
            && (t.virtualQuote * TokenSide(t, s') <= K(t, s) ==> K(t, s') < K(t, s) + TokenSide(t, s'))
  {
    SellIsOutcome(t, s, tIn);
    var k, tk := K(t, s), TokenSide(t, s) + tIn;
    CeilBounds(k, tk);
    CeilIff(k, tk, t.virtualQuote);
    MulDivAtMost(QuoteSell(t, s, tIn).value.quoteGross, BPS - t.feeBps, BPS);
    var s' := AfterSell(s, tIn, QuoteSell(t, s, tIn).value);
    var rounded := CeilDiv(k, tk);
    MulMono(rounded, QuoteSide(t, s'), tk);
    if t.virtualQuote * tk <= k && rounded < t.virtualQuote {
      MulStrict(rounded, t.virtualQuote, tk);
    }
    MulStrict(0, TokenSide(t, s), QuoteSide(t, s));
    MulCancelStrict(0, QuoteSide(t, s'), tk);
  }

  /** A sell fits the curve it is quoted on. */
  lemma SellFits(t: Terms, s: State, tIn: U128)
    requires QuoteSell(t, s, tIn).Ok?
    ensures var x := QuoteSell(t, s, tIn).value;
            x.quoteGross <= s.realQuote && s.tokensRemaining + tIn <= U128_MAX && x.quoteGross == x.quoteOut + x.fee
  {
    SellKeepsK(t, s, tIn);
  }

  // ---- histories ----------------------------------------------------------

  datatype Trade = Buy(quoteIn: U128) | Sell(tokensIn: U128)

  predicate Accepted(t: Terms, sellable: U128, s: State, trade: Trade) {
    && s.tokensRemaining > 0
    && match trade
       case Buy(q) => QuoteBuy(t, s, q).Ok?
       case Sell(x) => s.tokensRemaining + x <= sellable && QuoteSell(t, s, x).Ok?
  }

  /** The curve after one trade: a refused trade changes nothing, and nothing trades once the curve is empty. */
  function Apply(t: Terms, sellable: U128, s: State, trade: Trade): State {
    if !Accepted(t, sellable, s, trade) then s
    else
      match trade
      case Buy(q) => BuyFits(t, s, q); AfterBuy(s, QuoteBuy(t, s, q).value)
      case Sell(x) => SellKeepsK(t, s, x); AfterSell(s, x, QuoteSell(t, s, x).value)
  }

  lemma BuyFits(t: Terms, s: State, q: U128)
    requires QuoteBuy(t, s, q).Ok?
    ensures var b := QuoteBuy(t, s, q).value;
            && s.realQuote + b.quoteNetUsed <= U128_MAX && b.tokensOut <= s.tokensRemaining
            && Priceable(t, AfterBuy(s, b)) && K(t, s) <= K(t, AfterBuy(s, b))
            && b.quoteUsed == b.quoteNetUsed + b.fee <= q
            && 0 < b.quoteNetUsed && 0 < b.tokensOut
            && (b.crossed <==> b.tokensOut == s.tokensRemaining)
  {
    if QuoteBuy(t, s, q).value.crossed {
      CrossingBuyKeepsK(t, s, q);
    } else {
      PartialBuyKeepsK(t, s, q);
    }
  }

  function Run(t: Terms, sellable: U128, s: State, trades: seq<Trade>): State
    decreases |trades|
  {
    if trades == [] then s else Run(t, sellable, Apply(t, sellable, s, trades[0]), trades[1..])
  }

  /** No history of buys and sells lowers `k` or oversells the allocation. */
  lemma {:induction false} HistoryKeepsK(t: Terms, sellable: U128, s: State, trades: seq<Trade>)
    requires s.tokensRemaining <= sellable
    ensures K(t, s) <= K(t, Run(t, sellable, s, trades))
    ensures Run(t, sellable, s, trades).tokensRemaining <= sellable
    decreases |trades|
  {
    if trades != [] {
      var s' := Apply(t, sellable, s, trades[0]);
      if Accepted(t, sellable, s, trades[0]) {
        match trades[0]
        case Buy(q) => BuyFits(t, s, q);
        case Sell(x) => SellKeepsK(t, s, x);
      }
      HistoryKeepsK(t, sellable, s', trades[1..]);
    }
  }

  /** Whoever trades, however often: when the curve is back to no more tokens, it holds no less quote. */
  lemma NoHistoryExtractsQuote(t: Terms, sellable: U128, s: State, trades: seq<Trade>)
    requires s.tokensRemaining <= sellable && TokenSide(t, s) > 0
    requires Run(t, sellable, s, trades).tokensRemaining <= s.tokensRemaining
    ensures s.realQuote <= Run(t, sellable, s, trades).realQuote
  {
    var s' := Run(t, sellable, s, trades);
    HistoryKeepsK(t, sellable, s, trades);
    MulMono(TokenSide(t, s'), TokenSide(t, s), QuoteSide(t, s'));
    MulCancel(QuoteSide(t, s), QuoteSide(t, s'), TokenSide(t, s));
  }

  /** A launch's curve when it is created. */
  function Created(sellable: U128): State {
    State(0, sellable)
  }

  /** Every history from creation keeps the curve priceable. */
  lemma {:induction false} HistoryStaysPriceable(t: Terms, sellable: U128, s: State, trades: seq<Trade>)
    requires Priceable(t, s)
    ensures Priceable(t, Run(t, sellable, s, trades))
    decreases |trades|
  {
    if trades != [] {
      if Accepted(t, sellable, s, trades[0]) {
        match trades[0]
        case Buy(q) => BuyFits(t, s, q);
        case Sell(x) => SellKeepsK(t, s, x);
      }
      HistoryStaysPriceable(t, sellable, Apply(t, sellable, s, trades[0]), trades[1..]);
    }
  }

  /**
   After any history since creation, selling back everything sold is covered by the curve's own quote, and
   rounding, not the phantom reserve, sets what it pays.
   */
  lemma SellBackIsCovered(t: Terms, sellable: U128, trades: seq<Trade>, tIn: U128)
    requires t.tokenFloor > 0 && t.virtualQuote > 0
    requires t.tokenFloor + sellable <= U128_MAX && t.feeBps < BPS
    ensures var s := Run(t, sellable, Created(sellable), trades);
            s.tokensRemaining + tIn <= sellable ==>
              && Priceable(t, s)
              && QuoteSell(t, s, tIn) != Err(BadState)
              && t.virtualQuote <= CeilDiv(K(t, s), TokenSide(t, s) + tIn)
              && GrossOut(t, s, tIn) <= s.realQuote
  {
    var s := Run(t, sellable, Created(sellable), trades);
    HistoryStaysPriceable(t, sellable, Created(sellable), trades);
    if s.tokensRemaining + tIn <= sellable {
      HistoryKeepsK(t, sellable, Created(sellable), trades);
      SellIsOutcome(t, s, tIn);
      MulMono(TokenSide(t, s) + tIn, t.tokenFloor + sellable, t.virtualQuote);
      var rounded := CeilDiv(K(t, s), TokenSide(t, s) + tIn);
      CeilBounds(K(t, s), TokenSide(t, s) + tIn);
      MulCancel(t.virtualQuote, rounded, TokenSide(t, s) + tIn);
    }
  }

  /** After any history since creation a sell within what was sold raises `k` by less than the new token side. */
  lemma SellDriftInHistory(t: Terms, sellable: U128, trades: seq<Trade>, tIn: U128)
    requires var s := Run(t, sellable, Created(sellable), trades);
             s.tokensRemaining + tIn <= sellable && QuoteSell(t, s, tIn).Ok?
    ensures var s := Run(t, sellable, Created(sellable), trades);
            TokenSide(t, s) + tIn <= U128_MAX && QuoteSell(t, s, tIn).value.quoteGross <= s.realQuote
    ensures var s := Run(t, sellable, Created(sellable), trades);
            var s' := AfterSell(s, tIn, QuoteSell(t, s, tIn).value);
            K(t, s) <= K(t, s') < K(t, s) + TokenSide(t, s')
  {
    var s := Run(t, sellable, Created(sellable), trades);
    HistoryKeepsK(t, sellable, Created(sellable), trades);
    SellKeepsK(t, s, tIn);
    MulMono(TokenSide(t, s) + tIn, t.tokenFloor + sellable, t.virtualQuote);
  }

  /** A sold-out curve holds the advertised raise and no more exactly when `k` was still within the floor of its opening
      value before the buy that emptied it. */
  lemma SelloutIsExactIff(t: Terms, sellable: U128, s: State, qIn: U128)
    requires t.tokenFloor > 0 && RaiseAtSellout(t, sellable).Some?
    requires QuoteBuy(t, s, qIn).Ok? && QuoteBuy(t, s, qIn).value.crossed
    ensures AfterCrossing(t, s, qIn).realQuote == RaiseAtSellout(t, sellable).value
            <==> CeilDiv(K(t, s), t.tokenFloor) == CeilDiv(K(t, Created(sellable)), t.tokenFloor)
  {
    CrossingEnds(t, s, qIn);
  }

  const SMALL: Terms := Terms(1, 1, 0)

  /** Two tokens sold in two buys raise three units, one more than advertised. */
  lemma SelloutExceedsAdvertised()
    ensures RaiseAtSellout(SMALL, 2) == Some(2)
    ensures var first, last := BuyQuote(1, 1, 1, 0, false), BuyQuote(1, 2, 2, 0, true);
            && QuoteBuy(SMALL, Created(2), 1) == Ok(first) && AfterBuy(Created(2), first) == State(1, 1)
            && QuoteBuy(SMALL, State(1, 1), 5) == Ok(last) && AfterBuy(State(1, 1), last) == State(3, 0)
  {
    SmallFirst();
    SmallLast();
  }

  lemma SmallFirst()
    ensures QuoteBuy(SMALL, State(0, 2), 1) == Ok(BuyQuote(1, 1, 1, 0, false))
  {
    assert CeilDiv(3, 2) == 2 && Reserves(SMALL, State(0, 2)) == Ok((1, 3, 3));
    assert NetOf(1, 0) == 1 && Delivers(SMALL, State(0, 2), 1) && !Empties(SMALL, State(0, 2), 1);
    BuyIsOutcome(SMALL, State(0, 2), 1);
  }

  lemma SmallLast()
    ensures QuoteBuy(SMALL, State(1, 1), 5) == Ok(BuyQuote(1, 2, 2, 0, true))
  {
  }

  // ---- what rounding adds to a sellout ------------------------------------------------

  /** The buys of a history that leave tokens on the curve, and its accepted sells. */
  function Buys(t: Terms, sellable: U128, s: State, trades: seq<Trade>): nat
    decreases |trades|
  {
    if trades == [] then 0
    else
      (if trades[0].Buy? && Accepted(t, sellable, s, trades[0])
          && Apply(t, sellable, s, trades[0]).tokensRemaining > 0 then 1 else 0)
      + Buys(t, sellable, Apply(t, sellable, s, trades[0]), trades[1..])
  }

  function Sells(t: Terms, sellable: U128, s: State, trades: seq<Trade>): nat
    decreases |trades|
  {
    if trades == [] then 0
    else
      (if trades[0].Sell? && Accepted(t, sellable, s, trades[0]) then 1 else 0)
      + Sells(t, sellable, Apply(t, sellable, s, trades[0]), trades[1..])
  }

  /** What rounding can add to `k` in so many trades, on a curve that ends with quote side `end`: that for each buy, the
      whole token side for each sell. */
  function DriftRoom(t: Terms, sellable: U128, end: nat, buys: nat, sells: nat): nat {
    buys * end + sells * (t.tokenFloor + sellable)
  }

  /** What an accepted trade that ends in `s'` may add to `k`. */
  function RoomFor(t: Terms, sellable: U128, trade: Trade, s': State, end: nat): nat {
    if trade.Sell? then t.tokenFloor + sellable else if s'.tokensRemaining == 0 then t.tokenFloor else end
  }

  lemma MoreRoom(t: Terms, sellable: U128, end: nat, buys: nat, sells: nat)
    ensures DriftRoom(t, sellable, end, buys + 1, sells) == DriftRoom(t, sellable, end, buys, sells) + end
    ensures DriftRoom(t, sellable, end, buys, sells + 1)
            == DriftRoom(t, sellable, end, buys, sells) + t.tokenFloor + sellable
  {
  }

  lemma RoomOfFirst(t: Terms, sellable: U128, s: State, trades: seq<Trade>, end: nat)
    requires trades != []
    ensures var s', rest := Apply(t, sellable, s, trades[0]), trades[1..];
            var before := DriftRoom(t, sellable, end, Buys(t, sellable, s', rest), Sells(t, sellable, s', rest));
            var after := DriftRoom(t, sellable, end, Buys(t, sellable, s, trades), Sells(t, sellable, s, trades));
            after == before + (if Accepted(t, sellable, s, trades[0]) && (trades[0].Sell? || s'.tokensRemaining > 0)
                               then RoomFor(t, sellable, trades[0], s', end) else 0)
  {
    var s', rest := Apply(t, sellable, s, trades[0]), trades[1..];
    MoreRoom(t, sellable, end, Buys(t, sellable, s', rest), Sells(t, sellable, s', rest));
  }

  /** One accepted trade of a history that ends empty drifts by less than its kind allows. */
  lemma TradeDrift(t: Terms, sellable: U128, s: State, trade: Trade, rest: seq<Trade>)
    requires s.tokensRemaining <= sellable && 0 < t.tokenFloor
    requires t.virtualQuote * (t.tokenFloor + sellable) <= K(t, s) && Accepted(t, sellable, s, trade)
    requires Run(t, sellable, Apply(t, sellable, s, trade), rest).tokensRemaining == 0
    ensures var s', e := Apply(t, sellable, s, trade), Run(t, sellable, Apply(t, sellable, s, trade), rest);
            && s'.tokensRemaining <= sellable && t.virtualQuote * (t.tokenFloor + sellable) <= K(t, s')
            && K(t, s') <= K(t, s) + RoomFor(t, sellable, trade, s', QuoteSide(t, e))
  {
    var s' := Apply(t, sellable, s, trade);
    match trade
    case Buy(q) =>
      BuyFits(t, s, q);
      NoHistoryExtractsQuote(t, sellable, s', rest);
      if QuoteBuy(t, s, q).value.crossed {
        CrossingBuyKeepsK(t, s, q);
      } else {
        PartialBuyKeepsK(t, s, q);
      }
    case Sell(x) =>
      SellKeepsK(t, s, x);
      MulMono(TokenSide(t, s'), t.tokenFloor + sellable, t.virtualQuote);
  }

  /** However the curve got there, selling out raised at least the advertised amount. */
  lemma SelloutRaisesAdvertised(t: Terms, sellable: U128, trades: seq<Trade>)
    requires t.tokenFloor > 0
    requires RaiseAtSellout(t, sellable).Some?
    requires Run(t, sellable, Created(sellable), trades).tokensRemaining == 0
    ensures RaiseAtSellout(t, sellable).value <= Run(t, sellable, Created(sellable), trades).realQuote
  {
    HistoryKeepsK(t, sellable, Created(sellable), trades);
    EmptyCurveRaised(t, sellable, Run(t, sellable, Created(sellable), trades));
  }

  /** An empty curve whose `k` never fell below its opening one holds at least the advertised raise. */
  lemma EmptyCurveRaised(t: Terms, sellable: U128, s: State)
    requires t.tokenFloor > 0 && s.tokensRemaining == 0 && K(t, Created(sellable)) <= K(t, s)
    ensures RaiseAtSellout(t, sellable).Some? ==> RaiseAtSellout(t, sellable).value <= s.realQuote
  {
    CeilIff(t.virtualQuote * (t.tokenFloor + sellable), t.tokenFloor, QuoteSide(t, s));
  }

  /** A single buy that empties a fresh curve raises exactly the advertised amount. */
  lemma OneBuySelloutIsExact(t: Terms, sellable: U128, qIn: U128)
    requires QuoteBuy(t, Created(sellable), qIn).Ok? && QuoteBuy(t, Created(sellable), qIn).value.crossed
    ensures t.tokenFloor > 0
    ensures RaiseAtSellout(t, sellable) == Some(QuoteBuy(t, Created(sellable), qIn).value.quoteNetUsed)
  {
    var s := Created(sellable);
    BuyIsOutcome(t, s, qIn);
    EmptiesNeedsFloor(t, s, NetOf(qIn, t.feeBps));
    CrossingBuyKeepsK(t, s, qIn);
  }

  /** An empty curve trades no more. */
  lemma {:induction false} EmptyStaysEmpty(t: Terms, sellable: U128, s: State, trades: seq<Trade>)
    requires s.tokensRemaining == 0
    ensures Run(t, sellable, s, trades) == s
    ensures Buys(t, sellable, s, trades) == 0 && Sells(t, sellable, s, trades) == 0
    decreases |trades|
  {
    if trades != [] {
      EmptyStaysEmpty(t, sellable, s, trades[1..]);
    }
  }

  /** The drift of a whole history that ends empty. */
  lemma {:induction false} HistoryDrift(t: Terms, sellable: U128, s: State, trades: seq<Trade>)
    requires s.tokensRemaining <= sellable && 0 < t.tokenFloor
    requires t.virtualQuote * (t.tokenFloor + sellable) <= K(t, s)
    requires Run(t, sellable, s, trades).tokensRemaining == 0
    ensures var e := Run(t, sellable, s, trades);
            K(t, e) <= K(t, s) + (if s.tokensRemaining == 0 then 0 else t.tokenFloor)
                       + DriftRoom(t, sellable, QuoteSide(t, e), Buys(t, sellable, s, trades),
                                   Sells(t, sellable, s, trades))
    decreases |trades|
  {
    if s.tokensRemaining == 0 {
      EmptyStaysEmpty(t, sellable, s, trades);
    } else {
      var s', rest := Apply(t, sellable, s, trades[0]), trades[1..];
      var end := QuoteSide(t, Run(t, sellable, s', rest));
      if Accepted(t, sellable, s, trades[0]) {
        TradeDrift(t, sellable, s, trades[0], rest);
      }
      HistoryDrift(t, sellable, s', rest);
      RoomOfFirst(t, sellable, s, trades, end);
    }
  }

  /** A sold-out curve holds the advertised raise and what rounding added on the way: at most a `floor`-th part of the
      final quote side for each buy but the last, of the whole token side for each sell, and one unit for the last. */
  lemma SelloutExcessIsRounding(t: Terms, sellable: U128, trades: seq<Trade>)
    requires t.tokenFloor > 0 && RaiseAtSellout(t, sellable).Some?
    requires Run(t, sellable, Created(sellable), trades).tokensRemaining == 0
    ensures var e, raise := Run(t, sellable, Created(sellable), trades), RaiseAtSellout(t, sellable).value;
            var buys := Buys(t, sellable, Created(sellable), trades);
            var sells := Sells(t, sellable, Created(sellable), trades);
            && raise <= e.realQuote
            && (e.realQuote - raise) * t.tokenFloor
               <= t.tokenFloor + DriftRoom(t, sellable, QuoteSide(t, e), buys, sells)
  {
    var e, raise := Run(t, sellable, Created(sellable), trades), RaiseAtSellout(t, sellable).value;
    var opening := t.virtualQuote * (t.tokenFloor + sellable);
    SelloutRaisesAdvertised(t, sellable, trades);
    HistoryDrift(t, sellable, Created(sellable), trades);
    CeilBounds(opening, t.tokenFloor);
    ExcessArith(t.virtualQuote, raise, e.realQuote, t.tokenFloor, opening,
                DriftRoom(t, sellable, QuoteSide(t, e), Buys(t, sellable, Created(sellable), trades),
                          Sells(t, sellable, Created(sellable), trades)));
  }

  lemma ExcessArith(v: nat, raise: nat, held: nat, floor: nat, opening: nat, room: nat)
    requires raise <= held && opening <= (v + raise) * floor && (v + held) * floor <= opening + floor + room
    ensures (held - raise) * floor <= floor + room
  {
    assert (v + held) * floor == (v + raise) * floor + (held - raise) * floor;
  }
}
